/** Two circuits of a network being joined at a rendezvous point: the ends put on their layers and the node makes
    its bridge when they come to it, the bridge is looked up in the manager's table, and both circuits go on
    sharing nodes and connections with any number of others. */
module NetworkSplice {
  import opened Wrappers
  import opened Bytes
  import opened Circuit
  import opened Ntor
  import opened ExtendCodec
  import opened Flow
  import opened CircuitState
  import opened CircuitRun
  import opened ManagerTables
  import opened Network
  import opened NetworkView
  import opened NetworkFrame
  import opened NetworkElsewhere
  import opened NetworkOwn
  import opened NetworkGrow
  import opened NetworkTables
  import opened NetworkRun
  import opened NetworkCircuits
  import P = CircuitProgress
  import R = CircuitRun
  import S = Splice
  import F = ForwardPipe
  import B = BackwardPipe

  // ── Two circuits in one network ─────────────────────────────────────

  /** A leg the circuit passes over is neither the other's nor reserved for it. */
  ghost predicate Clear(v: View, u: View) {
    forall i: nat, x, y, circ :: Passes(v, i, x, y, circ) ==> !Reserved(u, x, Leg(y, circ))
  }

  /** Both have all their relays. */
  predicate Full(v: View) {
    |v.path| == |v.relays|
  }

  lemma BackUsed(g: Mesh, v: View, i: nat)
    requires Shows(g, v) && Full(v) && i < |v.path|
    ensures Back(v, i) in At(g, v.path[i].peer).relays && v.path[i] !in At(g, Before(v, i)).relays
    ensures v.path[i].circ !in At(g, v.path[i].peer).origins
    ensures i == 0 ==> v.path[i] !in At(g, Before(v, i)).relayByNext
    ensures i > 0 ==> v.path[i].circ !in At(g, Before(v, i)).origins
  {
    hide Formed, LinksShown;
    ShownNode(g, v, i);
  }

  /** The connections of different clients' circuits differ: followed back, the same connection leads to the
      same client. */
  lemma {:induction false} NeverShared(g: Mesh, v: View, u: View, i: nat, j: nat, x: PeerId, y: PeerId, circ: CircuitId)
    requires Shows(g, v) && Shows(g, u) && AllSane(g) && Full(v) && Full(u)
    requires !(v.home == u.home && v.origin.id == u.origin.id)
    requires Passes(v, i, x, y, circ)
    ensures !Passes(u, j, x, y, circ)
    decreases i
  {
    hide Shows, AllSane;
    if Passes(u, j, x, y, circ) {
      BackUsed(g, v, i);
      BackUsed(g, u, j);
      if i > 0 {
        RoutesUp(g, v, i);
      } else {
        RoutesHome(g, v);
      }
      if j > 0 {
        RoutesUp(g, u, j);
      } else {
        RoutesHome(g, u);
      }
      if i > 0 && j > 0 {
        assert v.path[i] == u.path[j] && Before(v, i) == Before(u, j);
        assert Back(v, i - 1) == Back(u, j - 1);
        NeverShared(g, v, u, i - 1, j - 1, Before(v, i - 1), v.path[i - 1].peer, v.path[i - 1].circ);
      }
    }
  }

  lemma ApartClear(g: Mesh, v: View, u: View)
    requires Shows(g, v) && Shows(g, u) && AllSane(g) && Full(v) && Full(u)
    requires !(v.home == u.home && v.origin.id == u.origin.id)
    ensures Clear(v, u)
  {
    hide Shows, AllSane, Passes;
    forall i: nat, x, y, circ | Passes(v, i, x, y, circ)
      ensures !Reserved(u, x, Leg(y, circ))
    {
      forall j: nat
        ensures !Passes(u, j, x, y, circ)
      {
        NeverShared(g, v, u, i, j, x, y, circ);
      }
      NotTheHome(g, v, u, i, x, y, circ);
    }
  }

  /** Nor does a circuit pass a client under the id by which that client finds its own. */
  lemma NotTheHome(g: Mesh, v: View, u: View, i: nat, x: PeerId, y: PeerId, circ: CircuitId)
    requires Shows(g, v) && Shows(g, u) && Full(v) && Passes(v, i, x, y, circ)
    requires !(v.home == u.home && v.origin.id == u.origin.id)
    ensures !((x == u.home || y == u.home) && circ == u.origin.id)
  {
    hide Shows;
    BackUsed(g, v, i);
    RoutesHome(g, u);
    RoutesHome(g, v);
    if i == 0 && v.home != u.home && v.path[0].peer == u.home {
      assert circ == v.origin.id;
    }
  }

  // ── Bridged ─────────────────────────────────────────────────────────

  lemma BridgedNode(v: View, leg: Leg, m: Mgr, i: nat)
    requires Formed(v) && Full(v) && v.path != [] && v.partner.None? && i < |v.path| && AtNode(v, i, m)
    requires v.path[i].peer == v.path[|v.path| - 1].peer && Back(v, i) != leg
    ensures var k := |v.path| - 1;
            AtNode(v.(partner := Some(leg)), i, m.(rendezvousBridges := Bridge(m.rendezvousBridges, leg, Back(v, k))))
  {
    hide Formed, Back;
    var k := |v.path| - 1;
    if i != k {
      OtherBack(v, i, k);
    }
    BackSame(v, v.(partner := Some(leg)), i);
  }

  lemma BackSame(v: View, v': View, i: nat)
    requires i < |v.path| && v'.home == v.home && v'.path == v.path
    ensures Back(v', i) == Back(v, i)
  {
  }

  lemma BridgedBefore(v: View, leg: Leg, m: Mgr, i: nat, back: Leg)
    requires i < |v.path| && AtBefore(v, i, m) && v.path[i] != leg && v.path[i] != back
    ensures AtBefore(v.(partner := Some(leg)), i, m.(rendezvousBridges := Bridge(m.rendezvousBridges, leg, back)))
  {
  }

  lemma BridgeBothWays(bridges: map<Leg, Leg>, a: Leg, b: Leg)
    requires a != b
    ensures Bridge(bridges, a, b) == Bridge(bridges, b, a)
  {
  }

  /** The manager of the rendezvous point, seen from one of the two circuits. */
  lemma BridgedHere(g: Mesh, v: View, leg: Leg)
    requires Shows(g, v) && Full(v) && v.path != [] && v.partner.None?
    requires !Reserved(v, v.path[|v.path| - 1].peer, leg)
    ensures var x := v.path[|v.path| - 1].peer;
            var m := At(g, x);
            ShownAt(v.(partner := Some(leg)), x, m.(rendezvousBridges := Bridge(m.rendezvousBridges, leg, Back(v, |v.path| - 1))))
  {
    var k := |v.path| - 1;
    var x, back := v.path[k].peer, Back(v, k);
    var m, v' := At(g, x), v.(partner := Some(leg));
    var m' := m.(rendezvousBridges := Bridge(m.rendezvousBridges, leg, back));
    hide Formed, LinksShown, TablesShown, Reserved, AtHome, AtOther, AtNode, AtBefore, Bridge;
    forall i | 0 <= i < |v'.path| && x == v'.path[i].peer
      ensures AtNode(v', i, m')
    {
      ShownNode(g, v, i);
      ReservedHere(v, i);
      BridgedNode(v, leg, m, i);
    }
    forall i | 0 <= i < |v'.path| && x == Before(v', i)
      ensures AtBefore(v', i, m')
    {
      ShownNode(g, v, i);
      ReservedHere(v, i);
      BackUsed(g, v, k);
      BackUsed(g, v, i);
      BridgedBefore(v, leg, m, i, back);
    }
    BridgedRest(g, v, leg, m, m');
  }

  lemma BridgedRest(g: Mesh, v: View, leg: Leg, m: Mgr, m': Mgr)
    requires Formed(v) && TablesShown(g, v) && Full(v) && v.path != [] && m == At(g, v.path[|v.path| - 1].peer)
    requires !Reserved(v, v.path[|v.path| - 1].peer, leg)
    requires m' == m.(rendezvousBridges := Bridge(m.rendezvousBridges, leg, Back(v, |v.path| - 1)))
    ensures var x := v.path[|v.path| - 1].peer;
            AtOther(v.(partner := Some(leg)), x, m') && (x == v.home ==> AtHome(v.(partner := Some(leg)), m'))
  {
    hide Formed, AtNode, AtBefore;
    var k := |v.path| - 1;
    NewNotHome(g, v, k);
    assert ShownAt(v, v.path[k].peer, m);
  }

  lemma BridgedAway(v: View, leg: Leg, x: PeerId, m: Mgr)
    requires v.path != [] && Full(v) && v.partner.None? && ShownAt(v, x, m) && x != v.path[|v.path| - 1].peer
    ensures ShownAt(v.(partner := Some(leg)), x, m)
  {
    var v' := v.(partner := Some(leg));
    forall i | 0 <= i < |v'.path| && x == v'.path[i].peer
      ensures AtNode(v', i, m)
    {
      assert AtNode(v, i, m);
    }
    forall i | 0 <= i < |v'.path| && x == Before(v', i)
      ensures AtBefore(v', i, m)
    {
      assert AtBefore(v, i, m);
    }
  }

  lemma FormedBridged(v: View, leg: Leg)
    requires Formed(v) && Full(v)
    ensures Formed(v.(partner := Some(leg)))
  {
    hide Apart, Keyed;
    ApartSame(v, v.(partner := Some(leg)));
    KeyedSame(v, v.(partner := Some(leg)));
  }

  /** `bridge_rendezvous` at the last node, as one of the two circuits sees it. */
  lemma BridgedShows(g: Mesh, v: View, leg: Leg)
    requires Shows(g, v) && Full(v) && v.path != [] && v.partner.None?
    requires !Reserved(v, v.path[|v.path| - 1].peer, leg)
    ensures var x := v.path[|v.path| - 1].peer;
            var m := At(g, x);
            Shows(WithMgr(g, x, m.(rendezvousBridges := Bridge(m.rendezvousBridges, leg, Back(v, |v.path| - 1)))),
                  v.(partner := Some(leg)))
  {
    var k := |v.path| - 1;
    var x := v.path[k].peer;
    var m, v' := At(g, x), v.(partner := Some(leg));
    var g' := WithMgr(g, x, m.(rendezvousBridges := Bridge(m.rendezvousBridges, leg, Back(v, k))));
    BridgedHere(g, v, leg);
    hide Formed, ShownAt, Reserved;
    FormedBridged(v, leg);
    forall y
      ensures ShownAt(v', y, At(g', y))
    {
      assert ShownAt(v, y, At(g, y));
      if y != x {
        BridgedAway(v, leg, y, At(g, y));
      }
    }
    BridgedLinks(g, g', v, leg);
  }

  lemma BridgedLinks(g: Mesh, g': Mesh, v: View, leg: Leg)
    requires Formed(v) && Formed(v.(partner := Some(leg))) && LinksShown(g, v) && g'.links == g.links
    ensures LinksShown(g', v.(partner := Some(leg)))
  {
    hide Formed, On;
    FormedParts(v);
    assert forall x, y :: Link(g', x, y) == Link(g, x, y);
    forall i | 0 <= i < |v.path|
      ensures LinksAt(g', v.(partner := Some(leg)), i)
    {
      assert LinksAt(g, v, i);
    }
  }

  // ── Two lines ───────────────────────────────────────────────────────

  /** Where a line's circuit goes. */
  type Legs = p: seq<Leg> | p != [] witness [Leg(Zeros(32), 0)]

  datatype Route = Route(home: PeerId, path: Legs)

  function LastLeg(r: Route): Leg {
    var k := |r.path| - 1;
    Leg(if k == 0 then r.home else r.path[k - 1].peer, r.path[k].circ)
  }

  function LineView(l: S.Line, r: Route, partner: Option<Leg>): View {
    View(r.home, r.path, l.origin, l.relays, l.down, l.up, None, None, partner)
  }

  /** What a line ends in: nothing yet, or the other's last leg. */
  function PartnerOf(bridged: bool, r: Route): Option<Leg> {
    if bridged then Some(LastLeg(r)) else None
  }

  /** The view of line `x`. */
  function Of(rs: seq<Route>, j: S.Joined, x: nat): View
    requires |rs| == 2 == |j.lines| && x < 2
  {
    LineView(j.lines[x], rs[x], PartnerOf(j.bridged, rs[1 - x]))
  }

  /** No handshake goes on, and no EXTEND2 is on its way. */
  ghost predicate Tame(l: S.Line) {
    && l.origin.pending.None?
    && forall i, k :: 0 <= i < |l.log.fbook| && 0 <= k < |l.log.fbook[i]| ==> !Picks(Commanding(Extend2), l.log.fbook[i][k])
  }

  /** The network holds both circuits, which end at one node and, once bridged there, in each other. */
  ghost predicate Pair(g: Mesh, rs: seq<Route>, j: S.Joined) {
    && |rs| == 2 && S.Sound(j)
    && rs[0].path[|rs[0].path| - 1].peer == rs[1].path[|rs[1].path| - 1].peer
    && !(rs[0].home == rs[1].home && j.lines[0].origin.id == j.lines[1].origin.id)
    && Shows(g, Of(rs, j, 0)) && Shows(g, Of(rs, j, 1))
    && Full(Of(rs, j, 0)) && Full(Of(rs, j, 1))
    && Tame(j.lines[0]) && Tame(j.lines[1])
  }

  /** What one circuit knows of the one it is, or will be, bridged to. */
  ghost predicate Bound(g: Mesh, v: View, u: View) {
    && Shows(g, v) && Shows(g, u) && Full(v) && Full(u) && Clear(v, u) && Clear(u, v)
    && v.path != [] && u.path != [] && v.path[|v.path| - 1].peer == u.path[|u.path| - 1].peer
    && Partners(v, u)
  }

  predicate Partners(v: View, u: View)
    requires v.path != [] && u.path != []
  {
    || (v.partner.None? && u.partner.None?)
    || (v.partner == Some(Back(u, |u.path| - 1)) && u.partner == Some(Back(v, |v.path| - 1)))
  }

  lemma BindsTwo(g: Mesh, v: View, u: View)
    requires Shows(g, v) && Shows(g, u) && AllSane(g) && !(v.home == u.home && v.origin.id == u.origin.id)
    requires v.path != [] && u.path != [] && v.path[|v.path| - 1].peer == u.path[|u.path| - 1].peer
    requires Full(v) && Full(u) && Partners(v, u)
    ensures Bound(g, v, u) && Bound(g, u, v)
  {
    hide Shows, AllSane, Clear;
    ApartClear(g, v, u);
    ApartClear(g, u, v);
  }

  lemma LastIsBack(l: S.Line, r: Route, partner: Option<Leg>)
    ensures LastLeg(r) == Back(LineView(l, r, partner), |r.path| - 1)
  {
  }

  lemma PairBound(g: Mesh, rs: seq<Route>, j: S.Joined, x: nat)
    requires Pair(g, rs, j) && AllSane(g) && x < 2
    ensures |rs| == 2 && S.Sound(j)
    ensures Bound(g, Of(rs, j, x), Of(rs, j, 1 - x)) && Tame(j.lines[x]) && Tame(j.lines[1 - x])
  {
    hide Shows, AllSane, Tame, Bound;
    LastIsBack(j.lines[0], rs[0], PartnerOf(j.bridged, rs[1]));
    LastIsBack(j.lines[1], rs[1], PartnerOf(j.bridged, rs[0]));
    BindsTwo(g, Of(rs, j, 0), Of(rs, j, 1));
  }

  lemma IsFormed(g: Mesh, v: View)
    requires Shows(g, v)
    ensures Formed(v) && (v.partner.Some? ==> Full(v))
  {
  }

  // ── Over the bridge ─────────────────────────────────────────────────

  lemma DispatchCross(w: World, me: PeerId, m: Mgr, leg: Leg, cell: Cell, draws: Draws)
    requires IsRelay(cell) && leg.circ !in m.origins && leg !in m.relayByNext && leg in m.relays
    requires m.relays[leg].nextPeer.None? && RelayPeel(w.s, m.relays[leg], cell.payload, draws.now).2.None?
    requires leg in m.rendezvousBridges && m.rendezvousBridges[leg] in m.relays && m.rendezvousBridges[leg] != leg
    ensures var (r, q, mine) := RelayPeel(w.s, m.relays[leg], cell.payload, draws.now);
            var partner := m.rendezvousBridges[leg];
            var (pr, q') := RelayBackward(w.s, m.relays[partner], q);
            Dispatch(w, me, m, leg, cell, draws)
            == (m.(relays := m.relays[leg := r][partner := pr.(lastActivity := draws.now)]),
                Some((pr.prevPeer, Cell(pr.prevCircId, cell.command, q'))))
  {
    hide RelayPeel, RelayBackward, OnCreate, OnCreated, OnHandle, OnDestroy, MgrBackward, OriginRelay;
    PeelKeeps(w.s, m.relays[leg], cell.payload, draws.now);
  }

  lemma DispatchKept(w: World, me: PeerId, m: Mgr, leg: Leg, cell: Cell, draws: Draws)
    requires IsRelay(cell) && leg.circ !in m.origins && leg !in m.relayByNext && leg in m.relays
    requires var mine := RelayPeel(w.s, m.relays[leg], cell.payload, draws.now).2; mine.Some? && mine.value.command != Extend2
    ensures Dispatch(w, me, m, leg, cell, draws)
         == (m.(relays := m.relays[leg := RelayPeel(w.s, m.relays[leg], cell.payload, draws.now).0]), None)
  {
    hide RelayPeel;
  }

  /** What the rendezvous point's manager holds of both. */
  lemma BoundTables(g: Mesh, v: View, u: View)
    requires Bound(g, v, u) && v.partner.Some?
    ensures var x := v.path[|v.path| - 1].peer;
            var m, a, b := At(g, x), Back(v, |v.path| - 1), Back(u, |u.path| - 1);
            && a in m.relays && m.relays[a] == v.relays[|v.path| - 1] && b in m.relays && m.relays[b] == u.relays[|u.path| - 1]
            && a in m.rendezvousBridges && m.rendezvousBridges[a] == b && a != b
            && v.relays[|v.path| - 1].nextPeer.None?
            && !Reserved(v, x, b) && !Reserved(u, x, a)
  {
    var k := |v.path| - 1;
    assert Formed(v);
    hide Formed, LinksShown, Reserved;
    ShownNode(g, v, k);
    ShownNode(g, u, |u.path| - 1);
    RelayKeys(g, v, k);
    Ends(v, k);
    assert Formed(u) by {
      IsFormed(g, u);
    }
    Ends(u, |u.path| - 1);
    ReservedHere(v, k);
    ReservedHere(u, |u.path| - 1);
  }

  /** A cell of line `v` the last node keeps: the other line is as it was. */
  lemma KeptBeside(w: World, g: Mesh, v: View, u: View, k: nat, draws: Draws)
    requires Bound(g, v, u) && v.partner.Some?
    requires Arriving(g, v, k) && k + 1 == |v.path| && |v.down| == |v.relays| && v.down[k] != []
    requires var mine := RelayPeel(w.s, v.relays[k], v.down[k][0], draws.now).2; mine.Some? && mine.value.command != Extend2
    ensures Shows(DoDeliver(w, g, Before(v, k), v.path[k].peer, draws), u)
  {
    BoundTables(g, v, u);
    hide Bound, Shows, Dispatch, RelayPeel, Pop, Push, WithMgr, Link, At, Reserved, Elsewhere;
    BoundShows(g, v, u);
    var cell := ArrivingParts(g, v, k);
    var x, y := Before(v, k), v.path[k].peer;
    var m := At(g, y);
    DispatchKept(w, y, m, Back(v, k), cell, draws);
    ReservedBothWays(u, y, x, v.path[k].circ);
    PopElsewhere(g, u, x, y);
    ShownNow(Pop(g, x, y), u, y);
    EntryElsewhere(u, y, m, Back(v, k), RelayPeel(w.s, m.relays[Back(v, k)], cell.payload, draws.now).0);
    MgrElsewhere(Pop(g, x, y), u, y, m.(relays := m.relays[Back(v, k) := RelayPeel(w.s, m.relays[Back(v, k)], cell.payload, draws.now).0]), None);
  }

  lemma BoundShows(g: Mesh, v: View, u: View)
    requires Bound(g, v, u)
    ensures Shows(g, v) && Shows(g, u) && |v.path| == |v.relays| > 0 && |u.path| == |u.relays| > 0
    ensures v.path[|v.path| - 1].peer == u.path[|u.path| - 1].peer
  {
  }

  lemma ShownNow(g: Mesh, v: View, x: PeerId)
    requires Shows(g, v)
    ensures v.path != [] && ShownAt(v, x, At(g, x)) && Formed(v)
  {
    FormedParts(v);
    hide Formed, LinksShown;
  }

  lemma WithTwice(g: Mesh, y: PeerId, m: Mgr, m': Mgr)
    ensures At(WithMgr(g, y, m), y) == m && WithMgr(WithMgr(g, y, m), y, m') == WithMgr(g, y, m')
  {
  }

  /** The line the cell came over. */
  lemma CrossFrom(g: Mesh, v: View, k: nat, r: RelayCircuit, b: Leg, pr: RelayCircuit, m: Mgr, out: Cell)
    requires Shows(g, v) && k < |v.relays| && k < |v.path| && SameKeys(v.relays[k], r) && m == At(g, v.path[k].peer)
    requires !Reserved(v, v.path[k].peer, b) && Leg(pr.prevPeer, out.circId) == b
    ensures var y := v.path[k].peer;
            Shows(Push(WithMgr(g, y, m.(relays := m.relays[Back(v, k) := r][b := pr])), y, pr.prevPeer, out),
                  v.(relays := v.relays[k := r]))
  {
    hide Shows, Push, Link, Reserved, Elsewhere, At, WithMgr, Back, SameKeys;
    var y, v' := v.path[k].peer, v.(relays := v.relays[k := r]);
    var m2 := m.(relays := m.relays[Back(v, k) := r]);
    var m3 := m2.(relays := m2.relays[b := pr]);
    SetRelay(g, v, k, r);
    WithTwice(g, y, m2, m3);
    ShownNow(WithMgr(g, y, m2), v', y);
    SameReserved(v, v', y, b);
    EntryElsewhere(v', y, m2, b, pr);
    MgrElsewhere(WithMgr(g, y, m2), v', y, m3, Some((pr.prevPeer, out)));
  }

  lemma SameReserved(v: View, v': View, x: PeerId, leg: Leg)
    requires v'.home == v.home && v'.path == v.path && v'.origin.id == v.origin.id
    ensures Reserved(v', x, leg) <==> Reserved(v, x, leg)
  {
    forall i: nat
      ensures Passes(v', i, x, leg.peer, leg.circ) == Passes(v, i, x, leg.peer, leg.circ)
    {
    }
  }

  /** The line the cell goes on over. */
  lemma CrossInto(g: Mesh, u: View, o: nat, a: Leg, r: RelayCircuit, pr: RelayCircuit, m: Mgr, out: Cell)
    requires Shows(g, u) && o < |u.relays| == |u.up| && o < |u.path| && SameKeys(u.relays[o], pr) && m == At(g, u.path[o].peer)
    requires !Reserved(u, u.path[o].peer, a) && a != Back(u, o)
    requires IsRelay(out) && Leg(pr.prevPeer, out.circId) == Back(u, o)
    ensures var y := u.path[o].peer;
            Shows(Push(WithMgr(g, y, m.(relays := m.relays[a := r][Back(u, o) := pr])), y, pr.prevPeer, out),
                  u.(relays := u.relays[o := pr], up := u.up[o := u.up[o] + [out.payload]]))
  {
    hide Shows, Push, Link, Reserved, Elsewhere, At, WithMgr, SameKeys, IsRelay;
    var y := u.path[o].peer;
    var m2 := m.(relays := m.relays[a := r]);
    var m3 := m2.(relays := m2.relays[Back(u, o) := pr]);
    ShownNow(g, u, y);
    EntryElsewhere(u, y, m, a, r);
    MgrElsewhere(g, u, y, m2, None);
    WithTwice(g, y, m2, m3);
    SetRelay(WithMgr(g, y, m2), u, o, pr);
    ShownLinks(g, u, o);
    PushUp(WithMgr(g, y, m3), u.(relays := u.relays[o := pr]), o, out);
  }

  /** A cell crosses the bridge. */
  lemma CrossRoutes(w: World, g: Mesh, v: View, u: View, k: nat, draws: Draws)
    requires Bound(g, v, u) && v.partner.Some?
    requires Arriving(g, v, k) && k + 1 == |v.path| && |v.down| == |v.relays| && v.down[k] != []
    requires RelayPeel(w.s, v.relays[k], v.down[k][0], draws.now).2.None? && |u.up| == |u.relays|
    ensures var (r, q, mine) := RelayPeel(w.s, v.relays[k], v.down[k][0], draws.now);
            var o := |u.relays| - 1;
            var (pr, q') := RelayBackward(w.s, u.relays[o], q);
            var g' := DoDeliver(w, g, Before(v, k), v.path[k].peer, draws);
            && Shows(g', v.(relays := v.relays[k := r], down := v.down[k := v.down[k][1..]]))
            && Shows(g', u.(relays := u.relays[o := pr.(lastActivity := draws.now)], up := u.up[o := u.up[o] + [q']]))
  {
    hide Bound, Shows, Dispatch, RelayPeel, RelayBackward, Pop, Push, Link, At, WithMgr, Reserved, Elsewhere;
    BoundShows(g, v, u);
    BoundTables(g, v, u);
    var cell := ArrivingParts(g, v, k);
    var x, y, o := Before(v, k), v.path[k].peer, |u.relays| - 1;
    var m, a, b := At(g, y), Back(v, k), Back(u, o);
    var (r, q, mine) := RelayPeel(w.s, v.relays[k], cell.payload, draws.now);
    var (pr, q') := RelayBackward(w.s, u.relays[o], q);
    var pr' := pr.(lastActivity := draws.now);
    DispatchCross(w, y, m, a, cell, draws);
    PeelKeeps(w.s, v.relays[k], cell.payload, draws.now);
    BackwardKeeps(w.s, u.relays[o], q);
    RelayKeys(g, u, o);
    var g1 := Pop(g, x, y);
    var out := Cell(pr.prevCircId, cell.command, q');
    SameReserved(v, v.(down := v.down[k := v.down[k][1..]]), y, b);
    CrossFrom(g1, v.(down := v.down[k := v.down[k][1..]]), k, r, b, pr', m, out);
    ReservedBothWays(u, y, x, v.path[k].circ);
    PopElsewhere(g, u, x, y);
    CrossInto(g1, u, o, a, r, pr', m, out);
  }

  // ── One line's step ─────────────────────────────────────────────────

  /** What an event in the network is for line `x`. */
  function LineStep(w: World, g: Mesh, v: View, x: nat, event: Event): Option<S.Step> {
    match event
    case Send(p, cid, target, rc, now) => if p == v.home && cid == v.origin.id then Some(S.EndSends(x, target, rc, now)) else None
    case Reply(p, leg, rc) =>
      var o := FindDown(v, leg.peer, p, leg.circ, 0);
      if o < |v.relays| && o < |v.path| then Some(S.RelaySends(x, o, rc)) else None
    case Deliver(from, p, draws) =>
      var cells := Link(g, from, p);
      if cells == [] then None
      else
        var down, up := FindDown(v, from, p, cells[0].circId, 0), FindDown(v, p, from, cells[0].circId, 0);
        if down < |v.path| then Some(S.RelayTakes(x, down, draws.now))
        else if up < |v.path| then Some(if up == 0 then S.EndReceives(x, draws.now) else S.RelayPassesBack(x, up - 1))
        else None
    case Local(p, op) =>
      var put := LayerPut(w, At(g, p), op);
      if p == v.home && put.Some? && put.value.0 == v.origin.id then Some(S.Installs(x, put.value.1)) else None
    case _ => None
  }

  /** The layer an operation puts on an origin circuit, and on which. */
  function LayerPut(w: World, m: Mgr, op: TableOp): Option<(CircuitId, HopState)> {
    match op
    case InstallE2E(cid, keys) => if cid in m.origins then Some((cid, HopFromE2E(keys, false))) else None
    case CompleteRendezvous(cookie, y, auth) =>
      if cookie !in m.pendingRendezvous || m.pendingRendezvous[cookie].circ !in m.origins then None
      else
        var p := m.pendingRendezvous[cookie];
        (match ClientFinalize(w.d, w.l, p.clientSk, p.clientXPub, p.hsStaticPub, y, auth)
         case Err(_) => None
         case Ok(keys) => Some((p.circ, HopFromE2E(keys, true))))
    case _ => None
  }

  lemma WholeSizes(l: S.Line)
    requires S.Whole(l)
    ensures |l.origin.hops| == |l.relays| == |l.down| == |l.up| == |l.log.fbook| == |l.log.bbook| > 0
    ensures forall i :: 0 <= i < |l.relays| ==> l.relays[i].Next().Some? == (i + 1 < |l.relays|)
  {
  }

  lemma SendsRoutes(w: World, g: Mesh, l: S.Line, r: Route, partner: Option<Leg>, target: nat, rc: RelayCell, now: Instant)
    requires Shows(g, LineView(l, r, partner)) && S.Whole(l) && S.Sendable(l, target)
    ensures Shows(DoSend(w, g, r.home, l.origin.id, target, rc, now), LineView(S.LineSends(w.s, l, target, rc, now), r, partner))
  {
    WholeSizes(l);
    SendsOk(w, l.origin, target, rc, now);
    hide Shows, EncryptOutbound, DoSend, F.Send, F.SendTo, S.Inside, S.Whole;
    SendShows(w, g, LineView(l, r, partner), target, rc, now);
  }

  lemma RepliesRoutes(w: World, g: Mesh, l: S.Line, r: Route, partner: Option<Leg>, i: nat, rc: RelayCell)
    requires Shows(g, LineView(l, r, partner)) && S.Whole(l) && i < |l.relays| == |r.path|
    ensures Shows(DoReply(w, g, r.path[i].peer, Back(LineView(l, r, partner), i), rc),
                  LineView(S.LineRelaySends(w.s, l, i, rc), r, partner))
  {
    WholeSizes(l);
    hide Shows, StampDigest, OnionBackward, B.EmitOwn, DoReply, S.Whole;
    ReplyShows(w, g, LineView(l, r, partner), i, rc);
  }

  lemma PassesRoutes(w: World, g: Mesh, l: S.Line, r: Route, partner: Option<Leg>, i: nat, draws: Draws)
    requires Shows(g, LineView(l, r, partner)) && AllSane(g) && S.Whole(l) && 0 < i < |r.path|
    requires Link(g, r.path[i].peer, r.path[i - 1].peer) != []
    requires var cell := Link(g, r.path[i].peer, r.path[i - 1].peer)[0]; cell.circId == r.path[i].circ && !cell.command.Created?
    ensures i < |l.up| && l.up[i] != []
    ensures Shows(DoDeliver(w, g, r.path[i].peer, r.path[i - 1].peer, draws), LineView(S.LinePassesBack(w.s, l, i - 1), r, partner))
  {
    WholeSizes(l);
    hide Shows, AllSane, RelayBackward, B.RelayWrap, DoDeliver, Link, S.Whole;
    BackwardShows(w, g, LineView(l, r, partner), i, draws);
  }

  /** With no handshake pending, `handle_origin_relay` does to the circuit what `decrypt_inbound` does; and it
      hands on the far end's cells but EXTENDED2s. */
  lemma ReceivesPlainly(w: World, o: Origin, p: Payload, now: Instant)
    requires o.pending.None?
    ensures var (o', found) := DecryptInbound(w.s, o, p, now);
            && OriginRelay(w.s, w.d, w.l, o, p, now).0 == o'
            && (found.Some? && found.value.1.command != Extended2 ==> OriginRelay(w.s, w.d, w.l, o, p, now).1 == Ok(Some(found.value)))
  {
    P.DecryptKeepsPath(w.s, o, p, now);
    hide DecryptInbound, ParseExtended2;
  }

  lemma ReceivesRoutes(w: World, g: Mesh, l: S.Line, r: Route, partner: Option<Leg>, draws: Draws)
    requires Shows(g, LineView(l, r, partner)) && S.Whole(l) && l.origin.pending.None?
    requires Link(g, r.path[0].peer, r.home) != []
    requires var cell := Link(g, r.path[0].peer, r.home)[0]; cell.circId == r.path[0].circ && !cell.command.Created?
    ensures 0 < |l.up| && l.up[0] != []
    ensures Shows(DoDeliver(w, g, r.path[0].peer, r.home, draws), LineView(S.LineReceives(w.s, l, draws.now).0, r, partner))
  {
    WholeSizes(l);
    hide Shows, DecryptInbound, OriginRelay, B.Receive, DoDeliver, Link, S.Whole;
    ReceiveShows(w, g, LineView(l, r, partner), draws);
    ReceivesPlainly(w, l.origin, l.up[0][0], draws.now);
  }

  /** A relay of a joined circuit that keeps a cell never keeps an EXTEND2. */
  lemma KeepsNoExtend(w: World, l: S.Line, i: nat, now: Instant)
    requires Tame(l) && S.Healthy(w.s, l) && i < |l.down| && l.down[i] != [] && F.NotMistaken(w.s, S.Fwd(l), i)
    ensures i < |l.relays|
    ensures var mine := RelayPeel(w.s, l.relays[i], l.down[i][0], now).2;
            mine.Some? ==> mine.value.command != Extend2
  {
    F.StepOutcome(w.s, S.Fwd(l), i);
    WholeSizes(l);
    var f := l.log.fbook[i][0];
    hide F.Inv, B.Inv, RecognizedPayload, FromPayload, Blank, Layer;
    assert !Picks(Commanding(Extend2), f);
  }

  /** A cell gets to the end of a circuit that is not bridged: the node drops it. */
  lemma DropRoutes(w: World, g: Mesh, v: View, i: nat, draws: Draws)
    requires Arriving(g, v, i) && i + 1 == |v.path| && v.partner.None? && |v.down| == |v.relays| && v.down[i] != []
    requires RelayPeel(w.s, v.relays[i], v.down[i][0], draws.now).2.None?
    ensures var r := RelayPeel(w.s, v.relays[i], v.down[i][0], draws.now).0;
            Shows(DoDeliver(w, g, Before(v, i), v.path[i].peer, draws),
                  v.(relays := v.relays[i := r], down := v.down[i := v.down[i][1..]]))
  {
    hide Shows, Push, Pop, WithMgr, Link, At, RelayPeel, RelayBackward;
    var cell := ArrivingParts(g, v, i);
    var x, y := Before(v, i), v.path[i].peer;
    var m := At(g, y);
    var r := RelayPeel(w.s, v.relays[i], cell.payload, draws.now).0;
    PeelKeeps(w.s, v.relays[i], cell.payload, draws.now);
    SetRelay(Pop(g, x, y), v.(down := v.down[i := v.down[i][1..]]), i, r);
  }

  lemma TakesRoutes(w: World, g: Mesh, l: S.Line, r: Route, partner: Option<Leg>, i: nat, draws: Draws)
    requires Arriving(g, LineView(l, r, partner), i) && S.Whole(l) && i < |l.down| && l.down[i] != [] && |r.path| == |l.relays|
    requires i + 1 < |l.relays| || partner.None?
    requires var mine := RelayPeel(w.s, l.relays[i], l.down[i][0], draws.now).2; mine.Some? ==> mine.value.command != Extend2
    ensures var (l', out) := S.LineTakes(w.s, l, i, draws.now);
            && (out.None? || partner.None?)
            && Shows(DoDeliver(w, g, Before(LineView(l, r, partner), i), r.path[i].peer, draws), LineView(l', r, partner))
  {
    hide Arriving, Shows, RelayPeel, F.RelayStep, DoDeliver, S.Whole, Link, ExtendOnward, S.Fwd;
    WholeSizes(l);
    var v := LineView(l, r, partner);
    PeelKeeps(w.s, l.relays[i], l.down[i][0], draws.now);
    if RelayPeel(w.s, l.relays[i], l.down[i][0], draws.now).2.Some? {
      KeepRoutes(w, g, v, i, draws);
    } else if i + 1 < |l.relays| {
      ForwardRoutes(w, g, v, i, draws);
    } else {
      DropRoutes(w, g, v, i, draws);
    }
  }

  // ── The other line ──────────────────────────────────────────────────

  /** The event is a delivery to the rendezvous point over line `v`. */
  predicate AtBridge(g: Mesh, v: View, event: Event) {
    && event.Deliver? && Link(g, event.from, event.p) != []
    && FindDown(v, event.from, event.p, Link(g, event.from, event.p)[0].circId, 0) + 1 == |v.path|
  }

  lemma ClearLeg(v: View, u: View, i: nat)
    requires Clear(v, u) && i < |v.path|
    ensures !Reserved(u, v.path[i].peer, Back(v, i)) && !Reserved(u, Before(v, i), v.path[i])
  {
    hide Reserved;
    assert Passes(v, i, v.path[i].peer, Before(v, i), v.path[i].circ);
    assert Passes(v, i, Before(v, i), v.path[i].peer, v.path[i].circ);
  }

  lemma ForeignDown(g: Mesh, v: View, u: View, i: nat)
    requires Bound(g, v, u) && i < |v.path| && (i + 1 < |v.path| || v.partner.None?)
    ensures Foreign(u, v.path[i].peer, Back(v, i))
  {
    hide Shows, Reserved, Clear, Formed, Back;
    ClearLeg(v, u, i);
    IsFormed(g, v);
    if i + 1 < |v.path| && v.path[i].peer == v.path[|v.path| - 1].peer {
      OtherBack(v, i, |v.path| - 1);
    }
  }

  lemma ForeignUp(g: Mesh, v: View, u: View, i: nat)
    requires Bound(g, v, u) && i < |v.path|
    ensures Foreign(u, Before(v, i), v.path[i])
  {
    hide Shows, Reserved, Clear;
    ClearLeg(v, u, i);
    BackUsed(g, v, i);
    BackUsed(g, v, |v.path| - 1);
  }

  /** A step of one line that does not reach the bridge leaves the other alone. */
  lemma OtherSpared(w: World, g: Mesh, v: View, u: View, x: nat, event: Event)
    requires Bound(g, v, u) && LineStep(w, g, v, x, event).Some? && (!AtBridge(g, v, event) || v.partner.None?)
    requires !(v.home == u.home && v.origin.id == u.origin.id)
    ensures Spares(g, u, event)
  {
    hide Shows, Reserved, Clear, FindDown, Foreign;
    BoundShows(g, v, u);
    match event
    case Send(_, _, _, _, _) =>
    case Reply(p, leg, _) =>
      var o := FindDown(v, leg.peer, p, leg.circ, 0);
      ReplyClear(g, v, u, p, leg, o);
    case Deliver(from, p, _) =>
      var circ := Link(g, from, p)[0].circId;
      var down, up := FindDown(v, from, p, circ, 0), FindDown(v, p, from, circ, 0);
      if down < |v.path| {
        ForeignDown(g, v, u, down);
      } else {
        ForeignUp(g, v, u, up);
      }
    case Local(p, op) =>
  }

  lemma ReplyClear(g: Mesh, v: View, u: View, p: PeerId, leg: Leg, o: nat)
    requires Bound(g, v, u) && o < |v.path| && Before(v, o) == leg.peer && v.path[o].peer == p && v.path[o].circ == leg.circ
    ensures !Reserved(u, p, leg)
  {
    hide Shows, Reserved, Clear;
    ClearLeg(v, u, o);
  }

  // ── Nothing but the ends' cells ─────────────────────────────────────

  lemma SendsTame(w: World, l: S.Line, target: nat, rc: RelayCell, now: Instant)
    requires Tame(l) && S.Healthy(w.s, l) && S.Sendable(l, target) && l.origin.e2e.Some?
    ensures Tame(S.LineSends(w.s, l, target, rc, now))
  {
    HealthyWhole(w.s, l);
    WholeSizes(l);
    EncryptKeeps(w.s, l.origin, target, rc, now);
    hide FromPayload, EncryptOutbound, WrapAll, S.Inside, S.Whole, F.Inv, B.Inv;
  }

  lemma OwnSendsTame(w: World, l: S.Line, target: nat, rc: RelayCell, now: Instant)
    requires Tame(l) && S.Healthy(w.s, l) && S.Sendable(l, target) && l.origin.e2e.None?
    requires rc.recognized == 0 && rc.digest == 0 && rc.command != Extend2
    ensures Tame(S.LineSends(w.s, l, target, rc, now))
  {
    HealthyWhole(w.s, l);
    WholeSizes(l);
    S.LineSendsOwn(w.s, l, target, rc, now);
    S.OwnSendKeepsPipe(w.s, l, target, rc);
    hide FromPayload, S.LineSends, S.OwnFlight, F.SendTo, S.Whole, F.Inv, B.Inv;
    var l' := S.LineSends(w.s, l, target, rc, now);
    assert l'.log.fbook == S.Fwd(l').book;
  }

  lemma TakesTame(w: World, l: S.Line, i: nat, now: Instant)
    requires Tame(l) && S.Whole(l) && i < |l.down| && l.down[i] != []
    ensures Tame(S.LineTakes(w.s, l, i, now).0)
  {
    WholeSizes(l);
    S.LineTakesIsStep(w.s, l, i, now);
    hide FromPayload, S.LineTakes, S.Whole, F.RelayStep, Picks;
    var l' := S.LineTakes(w.s, l, i, now).0;
    var p' := F.RelayStep(w.s, S.Fwd(l), i).0;
    assert l'.log.fbook == p'.book;
    forall a, k | 0 <= a < |l'.log.fbook| && 0 <= k < |l'.log.fbook[a]|
      ensures !Picks(Commanding(Extend2), l'.log.fbook[a][k])
    {
      StepBooks(w.s, S.Fwd(l), i, a, k);
    }
  }

  /** Every cell on a link after a step was on one before. */
  lemma StepBooks(s: Suite, p: F.Pipe, i: nat, a: nat, k: nat)
    requires F.Shape(p) && i < |p.wires| && p.wires[i] != []
    requires var q := F.RelayStep(s, p, i).0; a < |q.book| && k < |q.book[a]|
    ensures var f := F.RelayStep(s, p, i).0.book[a][k];
            exists b, m :: 0 <= b < |p.book| && 0 <= m < |p.book[b]| && p.book[b][m] == f
  {
    hide RecognizedPayload, Layer, FromPayload, Blank;
    if a == i {
      assert p.book[i][k + 1] == F.RelayStep(s, p, i).0.book[a][k];
    } else if k < |p.book[a]| {
      assert p.book[a][k] == F.RelayStep(s, p, i).0.book[a][k];
    } else {
      assert p.book[i][0] == F.RelayStep(s, p, i).0.book[a][k];
    }
  }

  lemma ReceivesTame(w: World, l: S.Line, now: Instant)
    requires Tame(l) && S.Whole(l) && l.up[0] != []
    ensures Tame(S.LineReceives(w.s, l, now).0)
  {
    WholeSizes(l);
    P.DecryptKeepsPath(w.s, l.origin, l.up[0][0], now);
    hide Picks, DecryptInbound, B.Receive, S.Whole;
  }

  lemma RelayTame(w: World, l: S.Line, i: nat, rc: RelayCell, q: Payload, now: Instant)
    requires Tame(l) && S.Whole(l)
    ensures i < |l.relays| ==> Tame(S.LineRelaySends(w.s, l, i, rc)) && S.LineRelaySends(w.s, l, i, rc).origin == l.origin
    ensures i + 1 < |l.up| && l.up[i + 1] != [] ==>
      Tame(S.LinePassesBack(w.s, l, i)) && S.LinePassesBack(w.s, l, i).origin == l.origin
    ensures Tame(S.LineCarries(w.s, l, q, now))
  {
    WholeSizes(l);
    hide Picks, B.EmitOwn, B.RelayWrap, B.Emit, StampDigest, OnionBackward, RelayBackward, S.Whole;
  }

  // ── Both lines' step ────────────────────────────────────────────────

  lemma TakesOut(w: World, l: S.Line, k: nat, now: Instant)
    requires S.Whole(l) && k < |l.down| && l.down[k] != [] && k + 1 == |l.relays|
    ensures var (r, q, mine) := RelayPeel(w.s, l.relays[k], l.down[k][0], now);
            var (l', out) := S.LineTakes(w.s, l, k, now);
            && out == (if mine.Some? then None else Some(q))
            && l'.origin == l.origin && l'.relays == l.relays[k := r] && l'.down == l.down[k := l.down[k][1..]] && l'.up == l.up
  {
    WholeSizes(l);
    hide S.Whole, RelayPeel, F.RelayStep;
    PeelKeeps(w.s, l.relays[k], l.down[k][0], now);
  }

  lemma CarriesOut(w: World, l: S.Line, q: Payload, now: Instant)
    requires S.Whole(l)
    ensures |l.relays| == |l.up| > 0
    ensures var o := |l.relays| - 1;
            var (pr, q') := RelayBackward(w.s, l.relays[o], q);
            var l' := S.LineCarries(w.s, l, q, now);
            && l'.origin == l.origin && l'.relays == l.relays[o := pr.(lastActivity := now)] && l'.down == l.down
            && l'.up == l.up[o := l.up[o] + [q']]
  {
    WholeSizes(l);
    hide S.Whole, RelayBackward, B.Emit;
  }

  /** A cell of one line reaches the rendezvous point: it is kept, or crosses to the other. */
  lemma BridgeLines(w: World, g: Mesh, l: S.Line, other: S.Line, r: Route, ro: Route, k: nat, draws: Draws)
    requires Bound(g, LineView(l, r, Some(LastLeg(ro))), LineView(other, ro, Some(LastLeg(r)))) && S.Whole(l) && S.Whole(other)
    requires k + 1 == |r.path| == |l.relays| && Arriving(g, LineView(l, r, Some(LastLeg(ro))), k) && k < |l.down| && l.down[k] != []
    requires var mine := RelayPeel(w.s, l.relays[k], l.down[k][0], draws.now).2; mine.Some? ==> mine.value.command != Extend2
    ensures var (l', out) := S.LineTakes(w.s, l, k, draws.now);
            var other' := if out.None? then other else S.LineCarries(w.s, other, out.value, draws.now);
            var g' := DoDeliver(w, g, Before(LineView(l, r, Some(LastLeg(ro))), k), r.path[k].peer, draws);
            Shows(g', LineView(l', r, Some(LastLeg(ro)))) && Shows(g', LineView(other', ro, Some(LastLeg(r))))
  {
    hide Bound, Shows, S.Whole, RelayPeel, RelayBackward, DoDeliver, Arriving, Link, LastLeg, S.LineTakes, S.LineCarries;
    WholeSizes(l);
    TakesOut(w, l, k, draws.now);
    var v, u := LineView(l, r, Some(LastLeg(ro))), LineView(other, ro, Some(LastLeg(r)));
    var (p, q, mine) := RelayPeel(w.s, l.relays[k], l.down[k][0], draws.now);
    if mine.Some? {
      KeepRoutes(w, g, v, k, draws);
      KeptBeside(w, g, v, u, k, draws);
    } else {
      CarriesOut(w, other, q, draws.now);
      CrossRoutes(w, g, v, u, k, draws);
    }
  }

  /** The lines after line `x`'s step. */
  predicate StepsTo(j: S.Joined, j': S.Joined, x: nat, l': S.Line, other': S.Line) {
    && |j.lines| == 2 && x < 2 && S.Sound(j') && j'.lines == j.lines[x := l'][1 - x := other']
    && j'.bridged == j.bridged && j'.layers == j.layers
  }

  lemma TakesTo(s: Suite, j: S.Joined, x: nat, k: nat, now: Instant)
    requires S.Enabled(j, S.RelayTakes(x, k, now)) && j.bridged
    ensures S.Whole(j.lines[x]) && S.Whole(j.lines[1 - x])
    ensures var (l', out) := S.LineTakes(s, j.lines[x], k, now);
            var other' := if out.None? then j.lines[1 - x] else S.LineCarries(s, j.lines[1 - x], out.value, now);
            StepsTo(j, S.Next(s, j, S.RelayTakes(x, k, now)), x, l', other')
  {
    hide S.LineTakes, S.LineCarries, S.Whole;
  }

  lemma PairTo(g: Mesh, rs: seq<Route>, j: S.Joined, g': Mesh, j': S.Joined, x: nat, l': S.Line, other': S.Line)
    requires Pair(g, rs, j) && StepsTo(j, j', x, l', other')
    requires l'.origin.id == j.lines[x].origin.id && other'.origin.id == j.lines[1 - x].origin.id && Tame(l') && Tame(other')
    requires |l'.relays| == |j.lines[x].relays| && |other'.relays| == |j.lines[1 - x].relays|
    requires Shows(g', LineView(l', rs[x], PartnerOf(j.bridged, rs[1 - x])))
    requires Shows(g', LineView(other', rs[1 - x], PartnerOf(j.bridged, rs[x])))
    ensures Pair(g', rs, j')
  {
    hide Shows, Tame;
    assert x == 0 || x == 1;
  }

  lemma BridgeRoutes(w: World, g: Mesh, rs: seq<Route>, j: S.Joined, x: nat, k: nat, draws: Draws)
    requires Pair(g, rs, j) && j.bridged && AllSane(g) && x < 2 && S.Healthy(w.s, j.lines[x]) && S.Enabled(j, S.RelayTakes(x, k, draws.now))
    requires k + 1 == |rs[x].path| && Arriving(g, Of(rs, j, x), k)
    requires F.NotMistaken(w.s, S.Fwd(j.lines[x]), k)
    ensures Pair(DoDeliver(w, g, Before(Of(rs, j, x), k), rs[x].path[k].peer, draws), rs,
                 S.Next(w.s, j, S.RelayTakes(x, k, draws.now)))
  {
    PairBound(g, rs, j, x);
    var l, other := j.lines[x], j.lines[1 - x];
    TakesTo(w.s, j, x, k, draws.now);
    assert k < |l.down| && l.down[k] != [];
    BridgeStep(w, g, rs, j, x, l, other, k, draws, S.Next(w.s, j, S.RelayTakes(x, k, draws.now)));
  }

  lemma BridgeStep(
    w: World, g: Mesh, rs: seq<Route>, j: S.Joined, x: nat, l: S.Line, other: S.Line, k: nat, draws: Draws, j': S.Joined)
    requires Pair(g, rs, j) && j.bridged && |rs| == 2 == |j.lines| && x < 2 && l == j.lines[x] && other == j.lines[1 - x]
    requires S.Whole(l) && S.Whole(other)
    requires Bound(g, LineView(l, rs[x], Some(LastLeg(rs[1 - x]))), LineView(other, rs[1 - x], Some(LastLeg(rs[x]))))
    requires Tame(l) && Tame(other) && S.Healthy(w.s, l)
    requires k + 1 == |rs[x].path| && Arriving(g, LineView(l, rs[x], Some(LastLeg(rs[1 - x]))), k)
    requires k < |l.down| && l.down[k] != [] && F.Shape(S.Fwd(l)) && F.NotMistaken(w.s, S.Fwd(l), k)
    requires var (l', out) := S.LineTakes(w.s, l, k, draws.now);
             var other' := if out.None? then other else S.LineCarries(w.s, other, out.value, draws.now);
             StepsTo(j, j', x, l', other')
    ensures Pair(DoDeliver(w, g, Before(LineView(l, rs[x], Some(LastLeg(rs[1 - x]))), k), rs[x].path[k].peer, draws), rs, j')
  {
    hide Bound, Shows, Tame, S.Whole, S.Healthy, F.NotMistaken, DoDeliver, Arriving, Link, Pair, S.LineTakes, S.LineCarries,
         RelayPeel, StepsTo, LastLeg;
    BoundFull(g, LineView(l, rs[x], Some(LastLeg(rs[1 - x]))), LineView(other, rs[1 - x], Some(LastLeg(rs[x]))));
    KeepsNoExtend(w, l, k, draws.now);
    TakesTame(w, l, k, draws.now);
    TakesOrigin(w.s, l, k, draws.now);
    BridgeLines(w, g, l, other, rs[x], rs[1 - x], k, draws);
    var (l', out) := S.LineTakes(w.s, l, k, draws.now);
    var other' := if out.None? then other else S.LineCarries(w.s, other, out.value, draws.now);
    if out.Some? {
      RelayTame(w, other, 0, RelayCell(RelayCommand.Drop, 0, 0, 0, []), out.value, draws.now);
      CarriesOrigin(w.s, other, out.value, draws.now);
    }
    var g' := DoDeliver(w, g, Before(LineView(l, rs[x], Some(LastLeg(rs[1 - x]))), k), rs[x].path[k].peer, draws);
    PairTo(g, rs, j, g', j', x, l', other');
  }

  lemma HealthyWhole(s: Suite, l: S.Line)
    requires S.Healthy(s, l)
    ensures S.Whole(l)
  {
  }

  lemma CarriesOrigin(s: Suite, l: S.Line, q: Payload, now: Instant)
    requires S.Whole(l)
    ensures S.LineCarries(s, l, q, now).origin == l.origin && |S.LineCarries(s, l, q, now).relays| == |l.relays|
  {
    WholeSizes(l);
    hide RelayBackward, B.Emit, S.Whole;
  }

  lemma BoundFull(g: Mesh, v: View, u: View)
    requires Bound(g, v, u)
    ensures Full(v) && Full(u)
  {
  }

  lemma TakesOrigin(s: Suite, l: S.Line, i: nat, now: Instant)
    requires S.Whole(l) && i < |l.down| && l.down[i] != []
    ensures S.LineTakes(s, l, i, now).0.origin == l.origin && |S.LineTakes(s, l, i, now).0.relays| == |l.relays|
  {
    WholeSizes(l);
    hide RelayPeel, F.RelayStep, S.Whole;
  }

  /** What each step needs of its own line. */
  predicate Ready(l: S.Line, step: S.Step) {
    && S.Whole(l) && !step.Bridges?
    && (step.EndSends? ==>
         && S.Sendable(l, step.target) && step.rc.recognized == 0 && step.rc.digest == 0
         && (l.origin.e2e.None? ==> step.rc.command != Extend2))
    && (step.RelayTakes? ==> step.i < |l.down| && l.down[step.i] != [])
    && (step.RelaySends? ==> step.i < |l.relays|)
    && (step.RelayPassesBack? ==> step.i + 1 < |l.up| && l.up[step.i + 1] != [])
    && (step.EndReceives? ==> l.up[0] != [])
  }

  /** The line after a step that does not reach the other. */
  function Stepped(s: Suite, l: S.Line, step: S.Step): S.Line
    requires Ready(l, step)
  {
    match step
    case EndSends(_, target, rc, now) => S.LineSends(s, l, target, rc, now)
    case RelayTakes(_, i, now) => S.LineTakes(s, l, i, now).0
    case RelaySends(_, i, rc) => S.LineRelaySends(s, l, i, rc)
    case RelayPassesBack(_, i) => S.LinePassesBack(s, l, i)
    case EndReceives(_, now) => S.LineReceives(s, l, now).0
    case Installs(_, layer) => S.LineInstalls(l, layer)
  }

  lemma AloneTo(s: Suite, j: S.Joined, step: S.Step)
    requires S.Enabled(j, step) && !step.Bridges?
    requires step.RelayTakes? ==> S.LineTakes(s, j.lines[step.x], step.i, step.now).1.None? || !j.bridged
    ensures Ready(j.lines[step.x], step)
    ensures StepsTo(j, S.Next(s, j, step), step.x, Stepped(s, j.lines[step.x], step), j.lines[1 - step.x])
  {
    hide S.LineTakes, S.LineCarries, S.LineSends, S.LineRelaySends, S.LinePassesBack, S.LineReceives, S.Whole, S.Stamped,
         S.Unclaimed, S.LineInstalls, S.Sendable;
  }

  lemma SteppedTame(w: World, l: S.Line, step: S.Step)
    requires Tame(l) && S.Healthy(w.s, l) && Ready(l, step)
    ensures Tame(Stepped(w.s, l, step))
    ensures Stepped(w.s, l, step).origin.id == l.origin.id && |Stepped(w.s, l, step).relays| == |l.relays|
  {
    SteppedSize(w.s, l, step);
    hide Tame, S.Healthy, S.LineTakes, S.LineSends, S.LineRelaySends, S.LinePassesBack, S.LineReceives, S.LineCarries, S.Whole;
    match step
    case EndSends(_, target, rc, now) =>
      if l.origin.e2e.Some? {
        SendsTame(w, l, target, rc, now);
      } else {
        OwnSendsTame(w, l, target, rc, now);
      }
      SendsName(w, l, target, rc, now);
    case RelayTakes(_, i, now) =>
      TakesTame(w, l, i, now);
      TakesOrigin(w.s, l, i, now);
    case RelaySends(_, i, rc) =>
      RelayTame(w, l, i, rc, Zeros(CELL_PAYLOAD), 0);
    case RelayPassesBack(_, i) =>
      RelayTame(w, l, i, RelayCell(RelayCommand.Drop, 0, 0, 0, []), l.up[i + 1][0], 0);
    case EndReceives(_, now) =>
      ReceivesTame(w, l, now);
      ReceivesName(w, l, now);
    case Installs(_, layer) =>
      InstallsTame(l, layer);
  }

  lemma InstallsTame(l: S.Line, layer: HopState)
    requires Tame(l)
    ensures Tame(S.LineInstalls(l, layer))
  {
    hide Picks;
  }

  lemma SteppedSize(s: Suite, l: S.Line, step: S.Step)
    requires Ready(l, step)
    ensures |Stepped(s, l, step).relays| == |l.relays|
  {
    WholeSizes(l);
    hide S.Whole, EncryptOutbound, RelayPeel, RelayBackward, DecryptInbound, StampDigest, OnionBackward, F.RelayStep, F.Send,
         F.SendTo, B.EmitOwn, B.RelayWrap, B.Receive, S.Inside;
    match step
    case EndSends(_, target, rc, now) =>
      var l' := S.LineSends(s, l, target, rc, now);
      assert l'.relays == l.relays;
    case RelayTakes(_, i, now) => TakesOrigin(s, l, i, now);
    case RelaySends(_, i, rc) =>
    case RelayPassesBack(_, i) =>
    case EndReceives(_, now) =>
    case Installs(_, layer) =>
  }

  lemma SendsName(w: World, l: S.Line, target: nat, rc: RelayCell, now: Instant)
    requires S.Whole(l) && S.Sendable(l, target)
    ensures S.LineSends(w.s, l, target, rc, now).origin.id == l.origin.id
  {
    EncryptKeeps(w.s, l.origin, target, rc, now);
    WholeSizes(l);
    hide EncryptOutbound, F.Send, F.SendTo, S.Inside, S.Whole;
  }

  lemma ReceivesName(w: World, l: S.Line, now: Instant)
    requires S.Whole(l) && l.up[0] != []
    ensures S.LineReceives(w.s, l, now).0.origin.id == l.origin.id
  {
    OriginRelayKeeps(w, l.origin.(pending := None), l.up[0][0], now);
    ReceivesPlainly(w, l.origin.(pending := None), l.up[0][0], now);
    WholeSizes(l);
    DecryptKeepsName(w.s, l.origin, l.up[0][0], now);
    hide DecryptInbound, B.Receive, S.Whole;
  }

  lemma DecryptKeepsName(s: Suite, o: Origin, p: Payload, now: Instant)
    ensures DecryptInbound(s, o, p, now).0.id == o.id && DecryptInbound(s, o, p, now).0.peer == o.peer
  {
    hide Peel, RecognizedPayload, FromPayload, Layer, Blank;
  }

  // ── Events ──────────────────────────────────────────────────────────

  lemma AloneDown(w: World, g: Mesh, l: S.Line, r: Route, partner: Option<Leg>, i: nat, draws: Draws)
    requires Shows(g, LineView(l, r, partner)) && S.Healthy(w.s, l) && Tame(l) && |l.relays| == |r.path|
    requires i < |r.path| && (i + 1 < |r.path| || partner.None?)
    requires var x := Before(LineView(l, r, partner), i);
             Link(g, x, r.path[i].peer) != [] && Link(g, x, r.path[i].peer)[0].circId == r.path[i].circ
    requires i < |l.down| && l.down[i] != [] && F.Shape(S.Fwd(l)) && F.NotMistaken(w.s, S.Fwd(l), i)
    ensures S.Whole(l) && (S.LineTakes(w.s, l, i, draws.now).1.None? || partner.None?)
    ensures Shows(DoDeliver(w, g, Before(LineView(l, r, partner), i), r.path[i].peer, draws),
                  LineView(S.LineTakes(w.s, l, i, draws.now).0, r, partner))
  {
    hide Shows, S.Healthy, S.Whole, Tame, DoDeliver, F.NotMistaken, S.LineTakes, RelayPeel, F.Shape, Link;
    HealthyWhole(w.s, l);
    WholeSizes(l);
    IsFormed(g, LineView(l, r, partner));
    KeepsNoExtend(w, l, i, draws.now);
    assert Arriving(g, LineView(l, r, partner), i);
    hide Arriving;
    TakesRoutes(w, g, l, r, partner, i, draws);
  }

  lemma AloneUp(w: World, g: Mesh, l: S.Line, r: Route, partner: Option<Leg>, i: nat, draws: Draws)
    requires Shows(g, LineView(l, r, partner)) && AllSane(g) && S.Whole(l) && Tame(l) && i < |r.path|
    requires var y := Before(LineView(l, r, partner), i);
             Link(g, r.path[i].peer, y) != [] && Link(g, r.path[i].peer, y)[0].circId == r.path[i].circ
    ensures i < |l.up| && l.up[i] != []
    ensures Shows(DoDeliver(w, g, r.path[i].peer, Before(LineView(l, r, partner), i), draws),
                  LineView(if i == 0 then S.LineReceives(w.s, l, draws.now).0 else S.LinePassesBack(w.s, l, i - 1), r, partner))
  {
    hide Shows, AllSane, S.Whole, Tame, DoDeliver, S.LinePassesBack, S.LineReceives, Link;
    NotCreated(g, LineView(l, r, partner), i);
    if i == 0 {
      TameIdle(l);
      ReceivesRoutes(w, g, l, r, partner, draws);
    } else {
      PassesRoutes(w, g, l, r, partner, i, draws);
    }
  }

  /** An end puts its layer on. */
  lemma InstallsRoutes(w: World, g: Mesh, l: S.Line, r: Route, partner: Option<Leg>, op: TableOp)
    requires Shows(g, LineView(l, r, partner))
    requires var put := LayerPut(w, At(g, r.home), op); put.Some? && put.value.0 == l.origin.id
    ensures var put := LayerPut(w, At(g, r.home), op);
            Shows(Do(w, g, Local(r.home, op)), LineView(S.LineInstalls(l, put.value.1), r, partner))
  {
    hide Shows, HopFromE2E, ClientFinalize;
    RoutesHome(g, LineView(l, r, partner));
    LayerShows(g, LineView(l, r, partner), DoTableOp(w, At(g, r.home), op), LayerPut(w, At(g, r.home), op).value.1);
  }

  /** A delivery over line `x` that does not cross a bridge, a cell one of its own nodes puts on it, or its
      end's layer being put on. */
  lemma AloneShows(w: World, g: Mesh, l: S.Line, r: Route, partner: Option<Leg>, x: nat, event: Event)
    requires Shows(g, LineView(l, r, partner)) && AllSane(g) && S.Healthy(w.s, l) && Tame(l) && |l.relays| == |r.path|
    requires LineStep(w, g, LineView(l, r, partner), x, event).Some?
    requires !AtBridge(g, LineView(l, r, partner), event) || partner.None?
    requires var step := LineStep(w, g, LineView(l, r, partner), x, event).value;
             Ready(l, step) && (step.RelayTakes? ==> F.Shape(S.Fwd(l)) && step.i < |l.down| && F.NotMistaken(w.s, S.Fwd(l), step.i))
    ensures var step := LineStep(w, g, LineView(l, r, partner), x, event).value;
            && (step.RelayTakes? ==> S.LineTakes(w.s, l, step.i, step.now).1.None? || partner.None?)
            && Shows(Do(w, g, event), LineView(Stepped(w.s, l, step), r, partner))
  {
    hide Shows, AllSane, S.Healthy, S.Whole, Tame, DoDeliver, DoSend, DoReply, F.NotMistaken, F.Shape, S.LineTakes, S.LineSends,
         S.LineRelaySends, S.LinePassesBack, S.LineReceives, FindDown, Formed, LayerPut, DoTableOp, S.LineInstalls;
    var v := LineView(l, r, partner);
    HealthyWhole(w.s, l);
    IsFormed(g, v);
    match event
    case Send(p, cid, target, rc, now) => SendsRoutes(w, g, l, r, partner, target, rc, now);
    case Reply(p, leg, rc) => RepliesRoutes(w, g, l, r, partner, FindDown(v, leg.peer, p, leg.circ, 0), rc);
    case Deliver(from, p, draws) =>
      var circ := Link(g, from, p)[0].circId;
      var down, up := FindDown(v, from, p, circ, 0), FindDown(v, p, from, circ, 0);
      if down < |v.path| {
        AloneDown(w, g, l, r, partner, down, draws);
      } else {
        AloneUp(w, g, l, r, partner, up, draws);
      }
    case Local(p, op) => InstallsRoutes(w, g, l, r, partner, op);
  }

  lemma TameIdle(l: S.Line)
    requires Tame(l)
    ensures l.origin.pending.None?
  {
  }

  /** No CREATED is on its way on a circuit that waits for none. */
  lemma NotCreated(g: Mesh, v: View, i: nat)
    requires Shows(g, v) && v.created.None? && i < |v.path| && Link(g, v.path[i].peer, Before(v, i)) != []
    requires Link(g, v.path[i].peer, Before(v, i))[0].circId == v.path[i].circ
    ensures !Link(g, v.path[i].peer, Before(v, i))[0].command.Created?
  {
    if Link(g, v.path[i].peer, Before(v, i))[0].command.Created? {
      PopCreated(g, v, i);
    }
  }

  /** The node at which the two circuits end bridges them, named in either order. */
  function BridgingStep(rs: seq<Route>, event: Event): Option<S.Step>
    requires |rs| == 2
  {
    if !event.Local? || !event.op.BridgeLegs? || event.p != rs[0].path[|rs[0].path| - 1].peer then None
    else if event.op.client == LastLeg(rs[0]) && event.op.hs == LastLeg(rs[1]) then Some(S.Bridges(0))
    else if event.op.client == LastLeg(rs[1]) && event.op.hs == LastLeg(rs[0]) then Some(S.Bridges(1))
    else None
  }

  /** What an event in the network is for the two lines. */
  function PairStep(w: World, g: Mesh, rs: seq<Route>, j: S.Joined, event: Event): Option<S.Step>
    requires |rs| == 2 == |j.lines|
  {
    var bridging, first := BridgingStep(rs, event), LineStep(w, g, Of(rs, j, 0), 0, event);
    if bridging.Some? then bridging else if first.Some? then first else LineStep(w, g, Of(rs, j, 1), 1, event)
  }

  /** What a run asks of the two circuits: an end with its layer on sends to its last hop, as the layer needs; an
      end puts its layer on once, the one the handshake gave it; nobody extends, closes, rebridges or sweeps out
      either of them; and nobody takes a cell of theirs for its own but the addressee. */
  ghost predicate HonestPair(w: World, g: Mesh, rs: seq<Route>, j: S.Joined, event: Event)
    requires |rs| == 2 == |j.lines|
  {
    var step := PairStep(w, g, rs, j, event);
    if step.None? then
      event.Extend? || event.Close? || event.Local? ==> Spares(g, Of(rs, j, 0), event) && Spares(g, Of(rs, j, 1), event)
    else
      && (event.Deliver? || S.Enabled(j, step.value))
      && (S.Enabled(j, step.value) ==> S.NoMistake(w.s, j, step.value))
  }

  function AdvancePair(w: World, g: Mesh, rs: seq<Route>, j: S.Joined, event: Event): S.Joined
    requires |rs| == 2 == |j.lines|
  {
    var step := PairStep(w, g, rs, j, event);
    if step.Some? && S.Enabled(j, step.value) then S.Next(w.s, j, step.value) else j
  }

  /** An event that is no step of either line leaves both alone. */
  lemma IdleLine(w: World, g: Mesh, v: View, u: View, event: Event)
    requires Bound(g, v, u) && LineStep(w, g, v, 0, event).None? && LineStep(w, g, u, 1, event).None?
    requires event.Extend? || event.Close? || event.Local? ==> Spares(g, v, event)
    ensures Spares(g, v, event) || (event.Reply? && event.leg !in At(g, event.p).relays)
  {
    hide Shows, FindDown, OpSpares, Reserved, Clear;
    BoundShows(g, v, u);
    match event
    case Deliver(from, p, draws) =>
      if Link(g, from, p) != [] {
        NotFoundForeign(g, v, from, p);
        NotAtPartner(g, v, u, from, p);
      }
    case Reply(p, leg, rc) =>
      if leg in At(g, p).relays && Reserved(v, p, leg) {
        OwnReply(g, v, p, leg);
      }
    case _ =>
  }

  lemma NotAtPartner(g: Mesh, v: View, u: View, from: PeerId, p: PeerId)
    requires Bound(g, v, u) && Link(g, from, p) != []
    requires FindDown(u, from, p, Link(g, from, p)[0].circId, 0) == |u.path|
    ensures !(v.partner == Some(Leg(from, Link(g, from, p)[0].circId)) && p == v.path[|v.path| - 1].peer)
  {
    hide Shows, Reserved, Clear;
    BoundShows(g, v, u);
  }

  lemma StepNone(w: World, g: Mesh, v: View, event: Event, x: nat, y: nat)
    requires LineStep(w, g, v, x, event).None?
    ensures LineStep(w, g, v, y, event).None?
  {
    hide FindDown;
  }

  lemma SparedOrNothing(w: World, g: Mesh, v: View, event: Event)
    requires Shows(g, v) && AllSane(g) && Cautious(w, g, event)
    requires Spares(g, v, event) || (event.Reply? && event.leg !in At(g, event.p).relays)
    ensures Shows(Do(w, g, event), v)
  {
    hide Shows, AllSane, Cautious, Spares, Do;
    if Spares(g, v, event) {
      SparedStep(w, g, v, event);
    } else {
      NoReply(w, g, event);
    }
  }

  lemma PairSame(g: Mesh, rs: seq<Route>, j: S.Joined, g': Mesh)
    requires Pair(g, rs, j) && Shows(g', Of(rs, j, 0)) && Shows(g', Of(rs, j, 1))
    ensures Pair(g', rs, j)
  {
    hide Shows, Tame;
  }

  lemma PairIdle(w: World, g: Mesh, rs: seq<Route>, j: S.Joined, event: Event)
    requires Pair(g, rs, j) && AllSane(g) && Cautious(w, g, event)
    requires |rs| == 2 == |j.lines|
    requires event.Extend? || event.Close? || event.Local? ==> Spares(g, Of(rs, j, 0), event) && Spares(g, Of(rs, j, 1), event)
    requires LineStep(w, g, Of(rs, j, 0), 0, event).None? && LineStep(w, g, Of(rs, j, 1), 1, event).None?
    ensures Pair(Do(w, g, event), rs, j)
  {
    hide Bound, AllSane, Cautious, Spares, Do, LineStep, Shows, Tame, Pair, LineView;
    PairBound(g, rs, j, 0);
    PairBound(g, rs, j, 1);
    var v, u := Of(rs, j, 0), Of(rs, j, 1);
    StepNone(w, g, v, event, 0, 1);
    StepNone(w, g, u, event, 1, 0);
    IdleLine(w, g, v, u, event);
    IdleLine(w, g, u, v, event);
    BoundShows(g, v, u);
    SparedOrNothing(w, g, v, event);
    SparedOrNothing(w, g, u, event);
    PairSame(g, rs, j, Do(w, g, event));
  }

  /** The step of an event is one of the line's own. */
  lemma StepOfLine(w: World, g: Mesh, v: View, x: nat, event: Event)
    requires LineStep(w, g, v, x, event).Some?
    ensures LineStep(w, g, v, x, event).value.x == x && !event.Extend? && !event.Close? && !event.Start?
    ensures LineStep(w, g, v, x, event).value.RelayTakes? ==> event.Deliver?
    ensures !LineStep(w, g, v, x, event).value.Bridges? && (event.Local? ==> !event.op.BridgeLegs?)
  {
    hide FindDown;
  }

  lemma DownReady(g: Mesh, l: S.Line, r: Route, partner: Option<Leg>, i: nat)
    requires Shows(g, LineView(l, r, partner)) && i < |r.path| == |l.relays|
    requires var x := Before(LineView(l, r, partner), i);
             Link(g, x, r.path[i].peer) != [] && Link(g, x, r.path[i].peer)[0].circId == r.path[i].circ
    ensures i < |l.down| && l.down[i] != []
  {
    hide Shows, Link;
    IsFormed(g, LineView(l, r, partner));
    PopDown(g, LineView(l, r, partner), i);
  }

  lemma UpReady(g: Mesh, l: S.Line, r: Route, partner: Option<Leg>, i: nat)
    requires Shows(g, LineView(l, r, partner)) && i < |r.path|
    requires var y := Before(LineView(l, r, partner), i);
             Link(g, r.path[i].peer, y) != [] && Link(g, r.path[i].peer, y)[0].circId == r.path[i].circ
    ensures i < |l.up| && l.up[i] != []
  {
    hide Shows, Link;
    NotCreated(g, LineView(l, r, partner), i);
    PopUp(g, LineView(l, r, partner), i);
  }

  /** What is delivered can be handled. */
  lemma DeliveredReady(w: World, g: Mesh, l: S.Line, r: Route, partner: Option<Leg>, x: nat, event: Event)
    requires Shows(g, LineView(l, r, partner)) && S.Whole(l) && |l.relays| == |r.path| && event.Deliver?
    requires LineStep(w, g, LineView(l, r, partner), x, event).Some?
    ensures Ready(l, LineStep(w, g, LineView(l, r, partner), x, event).value)
  {
    hide Shows, S.Whole, FindDown, Link;
    var v := LineView(l, r, partner);
    var circ := Link(g, event.from, event.p)[0].circId;
    var down, up := FindDown(v, event.from, event.p, circ, 0), FindDown(v, event.p, event.from, circ, 0);
    if down < |v.path| {
      DownReady(g, l, r, partner, down);
    } else {
      UpReady(g, l, r, partner, up);
    }
  }

  lemma AloneRoutes(w: World, g: Mesh, rs: seq<Route>, j: S.Joined, x: nat, event: Event, step: S.Step)
    requires Pair(g, rs, j) && AllSane(g) && Cautious(w, g, event) && x < 2 && |rs| == 2 == |j.lines|
    requires S.Healthy(w.s, j.lines[x]) && LineStep(w, g, Of(rs, j, x), x, event) == Some(step) 
    requires !AtBridge(g, Of(rs, j, x), event) || !j.bridged
    requires S.Enabled(j, step) && S.NoMistake(w.s, j, step)
    ensures Pair(Do(w, g, event), rs, S.Next(w.s, j, step))
  {
    PairBound(g, rs, j, x);
    StepOfLine(w, g, Of(rs, j, x), x, event);
    var l, other := j.lines[x], j.lines[1 - x];
    EnabledReady(w.s, j, step);
    AloneStep(w, g, rs, j, x, l, other, event, step);
  }

  lemma EnabledReady(s: Suite, j: S.Joined, step: S.Step)
    requires S.Enabled(j, step) && S.NoMistake(s, j, step) && !step.Bridges?
    ensures Ready(j.lines[step.x], step)
    ensures step.RelayTakes? ==>
      F.Shape(S.Fwd(j.lines[step.x])) && step.i < |j.lines[step.x].down| && F.NotMistaken(s, S.Fwd(j.lines[step.x]), step.i)
  {
    hide F.NotMistaken, B.NotMistaken;
  }

  lemma AloneStep(
    w: World, g: Mesh, rs: seq<Route>, j: S.Joined, x: nat, l: S.Line, other: S.Line, event: Event, step: S.Step)
    requires Pair(g, rs, j) && AllSane(g) && Cautious(w, g, event) && x < 2 && |rs| == 2 == |j.lines| && step.x == x
    requires l == j.lines[x] && other == j.lines[1 - x]
    requires Bound(g, LineView(l, rs[x], PartnerOf(j.bridged, rs[1 - x])), LineView(other, rs[1 - x], PartnerOf(j.bridged, rs[x])))
    requires Tame(l) && Tame(other) && S.Healthy(w.s, l) && Ready(l, step) && S.Enabled(j, step)
    requires LineStep(w, g, LineView(l, rs[x], PartnerOf(j.bridged, rs[1 - x])), x, event) == Some(step)
    requires !AtBridge(g, LineView(l, rs[x], PartnerOf(j.bridged, rs[1 - x])), event) || !j.bridged
    requires |l.relays| == |rs[x].path| && |other.relays| == |rs[1 - x].path|
    requires step.RelayTakes? ==> F.Shape(S.Fwd(l)) && step.i < |l.down| && F.NotMistaken(w.s, S.Fwd(l), step.i)
    ensures Pair(Do(w, g, event), rs, S.Next(w.s, j, step))
  {
    hide Pair, AllSane, Cautious, Bound, Tame, S.Healthy, Ready, S.Enabled, LineStep, AtBridge, F.Shape, F.NotMistaken, Do, Shows,
         PartnerOf, Stepped, StepsTo, S.LineTakes, S.Next;
    var v, u := LineView(l, rs[x], PartnerOf(j.bridged, rs[1 - x])), LineView(other, rs[1 - x], PartnerOf(j.bridged, rs[x]));
    BoundShows(g, v, u);
    NotPartnered(j.bridged, rs[1 - x]);
    StepOfLine(w, g, v, x, event);
    DifferentClients(g, rs, j, x);
    OtherSpared(w, g, v, u, x, event);
    SparedStep(w, g, u, event);
    AloneShows(w, g, l, rs[x], PartnerOf(j.bridged, rs[1 - x]), x, event);
    AloneTo(w.s, j, step);
    SteppedTame(w, l, step);
    PairTo(g, rs, j, Do(w, g, event), S.Next(w.s, j, step), x, Stepped(w.s, l, step), other);
  }

  lemma NotPartnered(bridged: bool, r: Route)
    ensures PartnerOf(bridged, r).None? <==> !bridged
  {
  }

  lemma DifferentClients(g: Mesh, rs: seq<Route>, j: S.Joined, x: nat)
    requires Pair(g, rs, j) && x < 2
    ensures |rs| == 2 == |j.lines| && !(rs[x].home == rs[1 - x].home && j.lines[x].origin.id == j.lines[1 - x].origin.id)
  {
    hide Shows, Tame;
    assert x == 0 || x == 1;
  }

  /** Delivering to the rendezvous point. */
  lemma BridgeDelivers(w: World, g: Mesh, rs: seq<Route>, j: S.Joined, x: nat, event: Event, step: S.Step)
    requires Pair(g, rs, j) && j.bridged && AllSane(g) && x < 2 && |rs| == 2 == |j.lines| && S.Healthy(w.s, j.lines[x])
    requires LineStep(w, g, Of(rs, j, x), x, event) == Some(step) && AtBridge(g, Of(rs, j, x), event)
    requires S.Enabled(j, step) && S.NoMistake(w.s, j, step)
    ensures Pair(Do(w, g, event), rs, S.Next(w.s, j, step))
  {
    PairBound(g, rs, j, x);
    var v := Of(rs, j, x);
    var k := |v.path| - 1;
    var circ := Link(g, event.from, event.p)[0].circId;
    assert FindDown(v, event.from, event.p, circ, 0) == k;
    assert step == S.RelayTakes(x, k, event.draws.now);
    BoundShows(g, v, Of(rs, j, 1 - x));
    assert Arriving(g, v, k);
    EnabledReady(w.s, j, step);
    hide Pair, AllSane, Bound, Shows, S.Healthy, S.Enabled, FindDown, Arriving, F.NotMistaken, F.Shape, S.Next, DoDeliver;
    BridgeRoutes(w, g, rs, j, x, k, event.draws);
  }

  lemma GoodWhole(s: Suite, j: S.Joined)
    requires S.Good(s, j)
    ensures S.Sound(j) && S.Healthy(s, j.lines[0]) && S.Healthy(s, j.lines[1]) && S.Whole(j.lines[0]) && S.Whole(j.lines[1])
  {
    hide S.Channel, F.Inv, B.Inv;
  }

  lemma ReadyEnabled(j: S.Joined, step: S.Step)
    requires S.Sound(j) && step.x < 2 && S.Whole(j.lines[0]) && S.Whole(j.lines[1]) && Ready(j.lines[step.x], step)
    requires step.RelayTakes? || step.RelayPassesBack? || step.EndReceives?
    ensures S.Enabled(j, step)
  {
    hide S.Whole;
  }

  lemma DeliveryKind(w: World, g: Mesh, v: View, x: nat, event: Event)
    requires event.Deliver? && LineStep(w, g, v, x, event).Some?
    ensures var step := LineStep(w, g, v, x, event).value;
            step.RelayTakes? || step.RelayPassesBack? || step.EndReceives?
  {
    hide FindDown;
  }

  lemma StepEnabled(w: World, g: Mesh, rs: seq<Route>, j: S.Joined, x: nat, event: Event)
    requires Pair(g, rs, j) && AllSane(g) && x < 2 && |rs| == 2 == |j.lines|
    requires S.Sound(j) && S.Whole(j.lines[0]) && S.Whole(j.lines[1])
    requires LineStep(w, g, Of(rs, j, x), x, event).Some? && event.Deliver?
    ensures S.Enabled(j, LineStep(w, g, Of(rs, j, x), x, event).value)
  {
    hide Pair, AllSane, LineStep, S.Whole, S.Enabled, Bound, Shows, Tame, Ready;
    PairBound(g, rs, j, x);
    BoundShows(g, Of(rs, j, x), Of(rs, j, 1 - x));
    StepOfLine(w, g, Of(rs, j, x), x, event);
    DeliveryKind(w, g, Of(rs, j, x), x, event);
    assert S.Whole(j.lines[x]);
    DeliveredReady(w, g, j.lines[x], rs[x], PartnerOf(j.bridged, rs[1 - x]), x, event);
    ReadyEnabled(j, LineStep(w, g, Of(rs, j, x), x, event).value);
  }

  lemma LineAdvances(w: World, g: Mesh, rs: seq<Route>, j: S.Joined, x: nat, event: Event, step: S.Step)
    requires Pair(g, rs, j) && AllSane(g) && Cautious(w, g, event) && x < 2 && |rs| == 2 == |j.lines|
    requires S.Healthy(w.s, j.lines[x]) && LineStep(w, g, Of(rs, j, x), x, event) == Some(step)
    requires S.Enabled(j, step) && S.NoMistake(w.s, j, step)
    ensures Pair(Do(w, g, event), rs, S.Next(w.s, j, step))
  {
    hide Pair, AllSane, Cautious, S.Healthy, S.Enabled, S.NoMistake, LineStep, Do, S.Next, AtBridge;
    if AtBridge(g, Of(rs, j, x), event) && j.bridged {
      BridgeDelivers(w, g, rs, j, x, event, step);
    } else {
      AloneRoutes(w, g, rs, j, x, event, step);
    }
  }

  /** Whatever happens in the network: it shows the two joined circuits either as they were, or after one step
      of theirs. */
  lemma PairAdvances(w: World, g: Mesh, rs: seq<Route>, j: S.Joined, event: Event)
    requires Pair(g, rs, j) && AllSane(g) && S.Good(w.s, j) && Cautious(w, g, event)
    requires |rs| == 2 == |j.lines| && HonestPair(w, g, rs, j, event)
    ensures var j' := AdvancePair(w, g, rs, j, event);
            && Pair(Do(w, g, event), rs, j') && AllSane(Do(w, g, event)) && S.Good(w.s, j') && |j'.lines| == 2
    ensures PairStep(w, g, rs, j, event).Some? ==>
      var step := PairStep(w, g, rs, j, event).value;
      S.Enabled(j, step) && S.NoMistake(w.s, j, step) && AdvancePair(w, g, rs, j, event) == S.Next(w.s, j, step)
  {
    hide Pair, AllSane, Cautious, S.Good, S.Healthy, S.Whole, S.Enabled, S.NoMistake, LineStep, Do, S.Next, Spares, Of;
    EventSane(w, g, event);
    GoodWhole(w.s, j);
    var first, second := LineStep(w, g, Of(rs, j, 0), 0, event), LineStep(w, g, Of(rs, j, 1), 1, event);
    if PairStep(w, g, rs, j, event).None? {
      PairIdle(w, g, rs, j, event);
      PairSound(g, rs, j);
    } else {
      var step := PairStep(w, g, rs, j, event).value;
      if BridgingStep(rs, event).Some? {
        BridgingAdvances(w, g, rs, j, event);
      } else {
        var x := if first.Some? then 0 else 1;
        StepOfLine(w, g, Of(rs, j, x), x, event);
        if event.Deliver? {
          StepEnabled(w, g, rs, j, x, event);
        }
        LineAdvances(w, g, rs, j, x, event, step);
      }
      S.StepGood(w.s, j, step);
      GoodWhole(w.s, S.Next(w.s, j, step));
      PairSound(Do(w, g, event), rs, S.Next(w.s, j, step));
    }
  }

  /** The bridge is made. */
  lemma BridgingAdvances(w: World, g: Mesh, rs: seq<Route>, j: S.Joined, event: Event)
    requires Pair(g, rs, j) && AllSane(g) && |rs| == 2 == |j.lines|
    requires BridgingStep(rs, event).Some? && S.Enabled(j, BridgingStep(rs, event).value)
    ensures Pair(Do(w, g, event), rs, S.Next(w.s, j, BridgingStep(rs, event).value))
  {
    hide Shows, AllSane, Tame, S.Whole, Bound, Do;
    PairBound(g, rs, j, 0);
    var v, u := Of(rs, j, 0), Of(rs, j, 1);
    LastIsBack(j.lines[0], rs[0], None);
    LastIsBack(j.lines[1], rs[1], None);
    BridgeShows(w, g, v, u, event);
    PairBridged(g, rs, j, Do(w, g, event), S.Next(w.s, j, BridgingStep(rs, event).value));
  }

  lemma PairBridged(g: Mesh, rs: seq<Route>, j: S.Joined, g': Mesh, j': S.Joined)
    requires Pair(g, rs, j) && |rs| == 2 && j' == j.(bridged := true)
    requires Shows(g', Of(rs, j, 0).(partner := Some(LastLeg(rs[1])))) && Shows(g', Of(rs, j, 1).(partner := Some(LastLeg(rs[0]))))
    ensures Pair(g', rs, j')
  {
    hide Shows, Tame, LastLeg;
  }

  lemma PairSound(g: Mesh, rs: seq<Route>, j: S.Joined)
    requires Pair(g, rs, j)
    ensures |j.lines| == |j.lost| == 2
  {
    hide Shows, Tame;
  }

  // ── Whole runs ──────────────────────────────────────────────────────

  ghost predicate FollowsPair(w: World, g: Mesh, rs: seq<Route>, j: S.Joined, events: seq<Event>, g': Mesh, j': S.Joined)
    requires |rs| == 2
    decreases events
  {
    if events == [] then g' == g && j' == j
    else
      && |j.lines| == 2 && Cautious(w, g, events[0]) && HonestPair(w, g, rs, j, events[0])
      && FollowsPair(w, Do(w, g, events[0]), rs, AdvancePair(w, g, rs, j, events[0]), events[1..], g', j')
  }

  function PairSteps(w: World, g: Mesh, rs: seq<Route>, j: S.Joined, events: seq<Event>): seq<S.Step>
    requires |rs| == 2
    decreases events
  {
    if events == [] || |j.lines| != 2 then []
    else
      var step := PairStep(w, g, rs, j, events[0]);
      (if step.Some? then [step.value] else [])
      + PairSteps(w, Do(w, g, events[0]), rs, AdvancePair(w, g, rs, j, events[0]), events[1..])
  }

  /** A run of the network is, for two circuits being joined, a run of `Splice`. */
  lemma {:induction false} PairRefines(
    w: World, g: Mesh, rs: seq<Route>, j: S.Joined, events: seq<Event>, g': Mesh, j': S.Joined)
    requires |rs| == 2 && Pair(g, rs, j) && AllSane(g) && S.Good(w.s, j) && FollowsPair(w, g, rs, j, events, g', j')
    ensures Pair(g', rs, j') && AllSane(g') && S.Good(w.s, j') && S.Run(w.s, j, PairSteps(w, g, rs, j, events), j')
    decreases events
  {
    hide Pair, AllSane, Cautious, S.Good, S.Enabled, S.NoMistake, PairStep, Do, S.Next, HonestPair;
    if events != [] {
      var step := PairStep(w, g, rs, j, events[0]);
      PairAdvances(w, g, rs, j, events[0]);
      PairRefines(w, Do(w, g, events[0]), rs, AdvancePair(w, g, rs, j, events[0]), events[1..], g', j');
      var rest := PairSteps(w, Do(w, g, events[0]), rs, AdvancePair(w, g, rs, j, events[0]), events[1..]);
      if step.Some? {
        assert PairSteps(w, g, rs, j, events) == [step.value] + rest;
        assert ([step.value] + rest)[1..] == rest;
      } else {
        assert PairSteps(w, g, rs, j, events) == [] + rest == rest;
      }
    }
  }

  // ── What is lost ────────────────────────────────────────────────────

  /** A cell that its relay does not take for its own comes over the circuit's last leg to its last node, which
      has no bridge for it. */
  predicate DroppedAtNode(w: World, g: Mesh, r: Route, event: Event) {
    && event.Deliver? && Link(g, event.from, event.p) != []
    && var cell, m := Link(g, event.from, event.p)[0], At(g, event.p);
    var leg := Leg(event.from, cell.circId);
    && event.p == r.path[|r.path| - 1].peer && leg == LastLeg(r)
    && leg in m.relays && leg !in m.rendezvousBridges
    && RelayPeel(w.s, m.relays[leg], cell.payload, event.draws.now).2.None?
  }

  /** A cell that none of its hops sent comes to the circuit's client, which has put no layer on yet. */
  predicate MissedAtEnd(w: World, g: Mesh, r: Route, event: Event) {
    && event.Deliver? && Link(g, event.from, event.p) != []
    && var cell, m := Link(g, event.from, event.p)[0], At(g, event.p);
    && event.p == r.home && Leg(event.from, cell.circId) == r.path[0]
    && cell.circId in m.origins && m.origins[cell.circId].e2e.None?
    && DecryptInbound(w.s, m.origins[cell.circId], cell.payload, event.draws.now).1.None?
  }

  /** The event loses a cell of end `x`. */
  predicate LosesIn(w: World, g: Mesh, rs: seq<Route>, event: Event, x: nat)
    requires |rs| == 2 && x < 2
  {
    DroppedAtNode(w, g, rs[x], event) || MissedAtEnd(w, g, rs[1 - x], event)
  }

  predicate LostAmong(w: World, g: Mesh, rs: seq<Route>, events: seq<Event>, x: nat)
    requires |rs| == 2 && x < 2
    decreases events
  {
    events != [] && (LosesIn(w, g, rs, events[0], x) || LostAmong(w, Do(w, g, events[0]), rs, events[1..], x))
  }

  lemma DownOnly(v: View, k: nat)
    requires Apart(v) && k < |v.path|
    ensures FindDown(v, Before(v, k), v.path[k].peer, v.path[k].circ, 0) == k
  {
    var i := FindDown(v, Before(v, k), v.path[k].peer, v.path[k].circ, 0);
    assert i <= k;
    assert i < k ==> Passes(v, k, Before(v, i), v.path[i].peer, v.path[i].circ);
  }

  lemma UpOnly(v: View)
    requires Apart(v) && v.path != []
    ensures FindDown(v, v.path[0].peer, v.home, v.path[0].circ, 0) == |v.path|
    ensures FindDown(v, v.home, v.path[0].peer, v.path[0].circ, 0) == 0
  {
    var i := FindDown(v, v.path[0].peer, v.home, v.path[0].circ, 0);
    assert Before(v, 0) == v.home;
    if 0 < i < |v.path| {
      assert Passes(v, i, Before(v, 0), v.path[0].peer, v.path[0].circ);
    }
  }

  lemma ApartOf(g: Mesh, v: View)
    requires Shows(g, v)
    ensures Apart(v) && Formed(v) && v.path != []
  {
  }

  lemma TakesNext(s: Suite, l: S.Line, i: nat, now: Instant)
    requires S.Whole(l) && i < |l.down| && l.down[i] != [] && S.LineTakes(s, l, i, now).1.Some?
    ensures i + 1 == |l.relays|
  {
    WholeSizes(l);
    PeelKeeps(s, l.relays[i], l.down[i][0], now);
    hide RelayPeel, F.RelayStep, S.Whole;
  }

  lemma DroppedIs(w: World, g: Mesh, l: S.Line, r: Route, partner: Option<Leg>, x: nat, event: Event)
    requires Shows(g, LineView(l, r, partner)) && S.Whole(l) && |l.relays| == |r.path| && event.Deliver?
    ensures DroppedAtNode(w, g, r, event) <==>
      && partner.None?
      && var step := LineStep(w, g, LineView(l, r, partner), x, event);
      step.Some? && step.value.RelayTakes? && Ready(l, step.value) && S.LineTakes(w.s, l, step.value.i, step.value.now).1.Some?
  {
    hide Shows, S.Whole, FindDown, S.LineTakes, DroppedAtNode, LineStep;
    var v := LineView(l, r, partner);
    var step := LineStep(w, g, v, x, event);
    if DroppedAtNode(w, g, r, event) {
      DroppedTakes(w, g, l, r, partner, x, event);
    } else if step.Some? && step.value.RelayTakes? && Ready(l, step.value)
              && S.LineTakes(w.s, l, step.value.i, step.value.now).1.Some? && partner.None? {
      TakesDropped(w, g, l, r, partner, x, event);
      assert false;
    }
  }

  lemma DroppedTakes(w: World, g: Mesh, l: S.Line, r: Route, partner: Option<Leg>, x: nat, event: Event)
    requires Shows(g, LineView(l, r, partner)) && S.Whole(l) && |l.relays| == |r.path| && DroppedAtNode(w, g, r, event)
    ensures partner.None?
    ensures var step := LineStep(w, g, LineView(l, r, partner), x, event);
            step.Some? && step.value.RelayTakes? && Ready(l, step.value) && S.LineTakes(w.s, l, step.value.i, step.value.now).1.Some?
  {
    hide Shows, S.Whole, RelayPeel, FindDown, Formed, Apart, S.LineTakes, LastLeg, At, Link, S.Sendable;
    WholeSizes(l);
    var v := LineView(l, r, partner);
    ApartOf(g, v);
    LastIsBack(l, r, partner);
    var k := |v.path| - 1;
    assert event.from == Before(v, k);
    assert Link(g, event.from, event.p)[0].circId == r.path[k].circ;
    DownOnly(v, k);
    TakenThere(w, g, l, r, partner, event, k);
    if partner.Some? {
      PartnerThere(g, v);
    }
    assert LineStep(w, g, v, x, event) == Some(S.RelayTakes(x, k, event.draws.now));
  }

  /** What the last node's manager has and gets is what the line says. */
  lemma TakenThere(w: World, g: Mesh, l: S.Line, r: Route, partner: Option<Leg>, event: Event, k: nat)
    requires Shows(g, LineView(l, r, partner)) && S.Whole(l) && k + 1 == |l.relays| == |r.path| && event.Deliver?
    requires event.from == Before(LineView(l, r, partner), k) && event.p == r.path[k].peer
    requires Link(g, event.from, event.p) != [] && Link(g, event.from, event.p)[0].circId == r.path[k].circ
    ensures k < |l.down| && l.down[k] != []
    ensures var cell, m := Link(g, event.from, event.p)[0], At(g, event.p);
            var leg := Leg(event.from, cell.circId);
            && leg in m.relays && (partner.None? ==> leg !in m.rendezvousBridges)
            && (RelayPeel(w.s, m.relays[leg], cell.payload, event.draws.now).2.None?
                <==> S.LineTakes(w.s, l, k, event.draws.now).1.Some?)
  {
    hide Shows, S.Whole, RelayPeel, Formed, S.LineTakes, Link, At;
    WholeSizes(l);
    var v := LineView(l, r, partner);
    assert Arriving(g, v, k);
    var cell := ArrivingParts(g, v, k);
    TakesOut(w, l, k, event.draws.now);
  }

  lemma TakesDropped(w: World, g: Mesh, l: S.Line, r: Route, partner: Option<Leg>, x: nat, event: Event)
    requires Shows(g, LineView(l, r, partner)) && S.Whole(l) && |l.relays| == |r.path| && event.Deliver? && partner.None?
    requires var step := LineStep(w, g, LineView(l, r, partner), x, event);
             step.Some? && step.value.RelayTakes? && Ready(l, step.value) && S.LineTakes(w.s, l, step.value.i, step.value.now).1.Some?
    ensures DroppedAtNode(w, g, r, event)
  {
    hide Shows, S.Whole, RelayPeel, FindDown, Formed, Apart, S.LineTakes, LastLeg;
    WholeSizes(l);
    var v := LineView(l, r, partner);
    LastIsBack(l, r, partner);
    var step := LineStep(w, g, v, x, event).value;
    TakesNext(w.s, l, step.i, step.now);
    TakenThere(w, g, l, r, partner, event, step.i);
  }

  lemma PartnerThere(g: Mesh, v: View)
    requires Shows(g, v) && Full(v) && v.path != [] && v.partner.Some?
    ensures Back(v, |v.path| - 1) in At(g, v.path[|v.path| - 1].peer).rendezvousBridges
  {
    hide Formed, LinksShown;
    ShownNode(g, v, |v.path| - 1);
  }

  lemma MissedIs(w: World, g: Mesh, l: S.Line, r: Route, partner: Option<Leg>, x: nat, event: Event)
    requires Shows(g, LineView(l, r, partner)) && S.Whole(l) && event.Deliver?
    ensures MissedAtEnd(w, g, r, event) <==>
      && l.origin.e2e.None?
      && var step := LineStep(w, g, LineView(l, r, partner), x, event);
      step.Some? && step.value.EndReceives? && Ready(l, step.value) && S.Unclaimed(w.s, l, step.value.now)
  {
    hide Shows, S.Whole, DecryptInbound, FindDown, Formed, Apart;
    WholeSizes(l);
    var v := LineView(l, r, partner);
    ApartOf(g, v);
    RoutesHome(g, v);
    var step := LineStep(w, g, v, x, event);
    if MissedAtEnd(w, g, r, event) {
      UpOnly(v);
      UpReady(g, l, r, partner, 0);
      NotCreated(g, v, 0);
      PopUp(g, v, 0);
    } else if step.Some? && step.value.EndReceives? {
      NotCreated(g, v, 0);
      PopUp(g, v, 0);
    }
  }

  /** No delivery is a step of both lines. */
  lemma OnlyOne(w: World, g: Mesh, rs: seq<Route>, j: S.Joined, event: Event, x: nat)
    requires Pair(g, rs, j) && AllSane(g) && |rs| == 2 == |j.lines| && x < 2 && event.Deliver?
    requires LineStep(w, g, Of(rs, j, x), x, event).Some?
    ensures PairStep(w, g, rs, j, event) == LineStep(w, g, Of(rs, j, x), x, event)
  {
    hide Shows, AllSane, Tame, FindDown, Clear, Reserved;
    PairBound(g, rs, j, x);
    var v, u := Of(rs, j, x), Of(rs, j, 1 - x);
    var circ := Link(g, event.from, event.p)[0].circId;
    NotBoth(v, u, event.from, event.p, circ);
    assert x == 0 || x == 1;
  }

  lemma NotBoth(v: View, u: View, from: PeerId, p: PeerId, circ: CircuitId)
    requires Clear(v, u)
    requires FindDown(v, from, p, circ, 0) < |v.path| || FindDown(v, p, from, circ, 0) < |v.path|
    ensures FindDown(u, from, p, circ, 0) == |u.path| && FindDown(u, p, from, circ, 0) == |u.path|
  {
    var a, b := FindDown(v, from, p, circ, 0), FindDown(v, p, from, circ, 0);
    var i := if a < |v.path| then a else b;
    assert Passes(v, i, p, from, circ);
    assert !Reserved(u, p, Leg(from, circ));
    var c, d := FindDown(u, from, p, circ, 0), FindDown(u, p, from, circ, 0);
    assert c < |u.path| ==> Passes(u, c, p, from, circ);
    assert d < |u.path| ==> Passes(u, d, p, from, circ);
  }

  /** An event loses a cell of end `x` exactly if the step it makes of the two lines does. */
  lemma LosesInIs(w: World, g: Mesh, rs: seq<Route>, j: S.Joined, event: Event, x: nat)
    requires Pair(g, rs, j) && AllSane(g) && |rs| == 2 == |j.lines| && x < 2
    requires S.Sound(j) && S.Whole(j.lines[0]) && S.Whole(j.lines[1])
    requires PairStep(w, g, rs, j, event).Some? ==> S.Enabled(j, PairStep(w, g, rs, j, event).value)
    ensures LosesIn(w, g, rs, event, x) <==>
      PairStep(w, g, rs, j, event).Some? && S.Loses(w.s, j, PairStep(w, g, rs, j, event).value, x)
  {
    hide Shows, AllSane, Tame, FindDown, S.Whole, DroppedAtNode, MissedAtEnd, S.LineTakes, S.Unclaimed, Pair, LineStep, Bound;
    PairBound(g, rs, j, x);
    BoundShows(g, Of(rs, j, x), Of(rs, j, 1 - x));
    var first, last := LineStep(w, g, Of(rs, j, x), x, event), LineStep(w, g, Of(rs, j, 1 - x), 1 - x, event);
    assert S.Whole(j.lines[x]) && S.Whole(j.lines[1 - x]);
    if event.Deliver? {
      DroppedIs(w, g, j.lines[x], rs[x], PartnerOf(j.bridged, rs[1 - x]), x, event);
      MissedIs(w, g, j.lines[1 - x], rs[1 - x], PartnerOf(j.bridged, rs[x]), 1 - x, event);
      NotPartnered(j.bridged, rs[1 - x]);
      if first.Some? {
        OnlyOne(w, g, rs, j, event, x);
        StepOfLine(w, g, Of(rs, j, x), x, event);
      }
      if last.Some? {
        OnlyOne(w, g, rs, j, event, 1 - x);
        StepOfLine(w, g, Of(rs, j, 1 - x), 1 - x, event);
      }
      LosesAlike(w.s, j, PairStep(w, g, rs, j, event), x, first, last);
    } else {
      NotDelivered(w, g, rs, j, event);
    }
  }

  lemma NotDelivered(w: World, g: Mesh, rs: seq<Route>, j: S.Joined, event: Event)
    requires |rs| == 2 == |j.lines| && !event.Deliver?
    ensures var step := PairStep(w, g, rs, j, event); step.Some? ==> !step.value.RelayTakes? && !step.value.EndReceives?
    ensures forall r :: !DroppedAtNode(w, g, r, event) && !MissedAtEnd(w, g, r, event)
  {
    hide FindDown;
  }

  lemma LosesAlike(s: Suite, j: S.Joined, step: Option<S.Step>, x: nat, first: Option<S.Step>, last: Option<S.Step>)
    requires S.Sound(j) && S.Whole(j.lines[0]) && S.Whole(j.lines[1]) && x < 2
    requires step.Some? ==> S.Enabled(j, step.value)
    requires first.Some? ==> step == first && first.value.x == x
    requires last.Some? ==> step == last && last.value.x == 1 - x
    requires first.None? && last.None? ==> step.None? || step.value.Bridges?
    ensures step.Some? && S.Loses(s, j, step.value, x) <==>
      || (!j.bridged && first.Some? && first.value.RelayTakes? && Ready(j.lines[x], first.value)
          && S.LineTakes(s, j.lines[x], first.value.i, first.value.now).1.Some?)
      || (j.lines[1 - x].origin.e2e.None? && last.Some? && last.value.EndReceives? && Ready(j.lines[1 - x], last.value)
          && S.Unclaimed(s, j.lines[1 - x], last.value.now))
  {
    hide S.Whole, S.LineTakes, S.Unclaimed;
  }

  /** In a run of the network, just the cells that are lost to a missing bridge or layer are lost. */
  lemma {:induction false} LostOnlySo(
    w: World, g: Mesh, rs: seq<Route>, j: S.Joined, events: seq<Event>, g': Mesh, j': S.Joined, x: nat)
    requires |rs| == 2 && Pair(g, rs, j) && AllSane(g) && S.Good(w.s, j) && FollowsPair(w, g, rs, j, events, g', j') && x < 2
    ensures S.Sound(j) && S.Sound(j') && (j'.lost[x] <==> j.lost[x] || LostAmong(w, g, rs, events, x))
    decreases events
  {
    hide Pair, AllSane, Cautious, S.Good, S.Enabled, S.NoMistake, PairStep, Do, S.Next, HonestPair, LosesIn, S.Loses;
    GoodWhole(w.s, j);
    if events != [] {
      PairAdvances(w, g, rs, j, events[0]);
      LosesInIs(w, g, rs, j, events[0], x);
      if PairStep(w, g, rs, j, events[0]).Some? {
        S.LosesExactly(w.s, j, PairStep(w, g, rs, j, events[0]).value, x);
      }
      LostOnlySo(w, Do(w, g, events[0]), rs, AdvancePair(w, g, rs, j, events[0]), events[1..], g', j', x);
    }
  }

  // ── Joining ─────────────────────────────────────────────────────────

  function RouteOf(n: R.Net): Route
    requires n.path != []
  {
    Route(n.home, n.path)
  }

  /** The end-to-end layer is put on at one end. */
  lemma LayerShows(g: Mesh, v: View, m': Mgr, e2e: HopState)
    requires Shows(g, v) && v.origin.id in At(g, v.home).origins
    requires var m := At(g, v.home);
             && m'.relays == m.relays && m'.relayByNext == m.relayByNext && m'.rendezvousBridges == m.rendezvousBridges
             && m'.origins == m.origins[v.origin.id := v.origin.(e2e := Some(e2e))]
    ensures Shows(WithMgr(g, v.home, m'), v.(origin := v.origin.(e2e := Some(e2e))))
  {
    hide Shows, Elsewhere;
    var m, v' := At(g, v.home), v.(origin := v.origin.(e2e := Some(e2e)));
    var m1 := m.(origins := m.origins[v.origin.id := v'.origin]);
    SetOrigin(g, v, v'.origin);
    WithTwice(g, v.home, m1, m');
    var g1 := WithMgr(g, v.home, m1);
    ShownNow(g1, v', v.home);
    SameTwice(v', v.home, m1, m');
    MgrElsewhere(g1, v', v.home, m', None);
  }

  lemma SameTwice(v: View, x: PeerId, m: Mgr, m': Mgr)
    requires v.path != [] && ShownAt(v, x, m)
    requires m'.relays == m.relays && m'.relayByNext == m.relayByNext && m'.rendezvousBridges == m.rendezvousBridges
    requires m'.origins == m.origins
    ensures Elsewhere(v, x, m, m')
  {
    hide Reserved, ReservedOrigin, AtNode, AtBefore, AtHome;
  }

  lemma BuiltTame(w: World, n: R.Net)
    requires S.Built(w, n)
    ensures Tame(S.LineOf(n)) && Full(ViewOf(n)) && n.path != [] && n.create.None? && n.created.None? && n.client.e2e.None?
  {
    SteadyLinks(w, n);
    SteadyShape(w, n);
    hide Picks, Filter, F.Wire, ExtendedsInFlight, Peers, F.HopInv, F.CellInv, B.CountInv, B.DigestInv, B.CellInv, TalkAt;
    var book := n.log.fbook;
    forall i, k | 0 <= i < |book| && 0 <= k < |book[i]|
      ensures !Picks(Commanding(Extend2), book[i][k])
    {
      F.WireMember(book, |book| - 1, i, k);
      FilterMember(F.Wire(book, |book| - 1), Commanding(Extend2), book[i][k]);
    }
  }

  /** What the client registered for the cookie finishes with these keys. */
  predicate Completes(w: World, m: Mgr, cid: CircuitId, cookie: Cookie, y: Key32, auth: Key32, keys: E2EKeys) {
    && cookie in m.pendingRendezvous && m.pendingRendezvous[cookie].circ == cid
    && var p := m.pendingRendezvous[cookie];
    ClientFinalize(w.d, w.l, p.clientSk, p.clientXPub, p.hsStaticPub, y, auth) == Ok(keys)
  }

  /** Whenever the service comes to install its layer, it can. */
  lemma InstallStep(w: World, g: Mesh, rs: seq<Route>, j: S.Joined, keys: E2EKeys)
    requires Pair(g, rs, j) && S.Good(w.s, j) && |rs| == 2 == |j.lines| && j.lines[1].origin.e2e.None?
    requires j.layers[1] == HopFromE2E(keys, false)
    ensures var event := Local(rs[1].home, InstallE2E(j.lines[1].origin.id, keys));
            && Cautious(w, g, event) && HonestPair(w, g, rs, j, event)
            && PairStep(w, g, rs, j, event) == Some(S.Installs(1, j.layers[1]))
  {
    hide Shows, S.Whole, S.Healthy, HopFromE2E, Tame, S.ChannelFrom;
    GoodWhole(w.s, j);
    DifferentClients(g, rs, j, 1);
    RoutesHome(g, Of(rs, j, 1));
  }

  /** Whenever what completes the rendezvous comes to the client, it puts its layer on. */
  lemma CompleteStep(w: World, g: Mesh, rs: seq<Route>, j: S.Joined, cookie: Cookie, y: Key32, auth: Key32, keys: E2EKeys)
    requires Pair(g, rs, j) && S.Good(w.s, j) && |rs| == 2 == |j.lines| && j.lines[0].origin.e2e.None?
    requires Completes(w, At(g, rs[0].home), j.lines[0].origin.id, cookie, y, auth, keys)
    requires j.layers[0] == HopFromE2E(keys, true)
    ensures var event := Local(rs[0].home, TableOp.CompleteRendezvous(cookie, y, auth));
            && Cautious(w, g, event) && HonestPair(w, g, rs, j, event)
            && PairStep(w, g, rs, j, event) == Some(S.Installs(0, j.layers[0]))
  {
    hide Shows, S.Whole, S.Healthy, HopFromE2E, Tame, S.ChannelFrom, ClientFinalize;
    GoodWhole(w.s, j);
    RoutesHome(g, Of(rs, j, 0));
  }

  /** Whenever the rendezvous point comes to make the bridge, the legs are free for it. */
  lemma BridgeStepIs(w: World, g: Mesh, rs: seq<Route>, j: S.Joined)
    requires Pair(g, rs, j) && AllSane(g) && S.Good(w.s, j) && |rs| == 2 == |j.lines| && !j.bridged
    ensures var event := Local(rs[0].path[|rs[0].path| - 1].peer, TableOp.BridgeLegs(LastLeg(rs[0]), LastLeg(rs[1])));
            && Cautious(w, g, event) && HonestPair(w, g, rs, j, event)
            && PairStep(w, g, rs, j, event) == Some(S.Bridges(0))
  {
    hide Shows, AllSane, Tame, S.Whole, S.Healthy, S.ChannelFrom, Bound, Do;
    GoodWhole(w.s, j);
    PairBound(g, rs, j, 0);
    LastIsBack(j.lines[0], rs[0], None);
    LastIsBack(j.lines[1], rs[1], None);
    var event := Local(rs[0].path[|rs[0].path| - 1].peer, TableOp.BridgeLegs(LastLeg(rs[0]), LastLeg(rs[1])));
    BridgeShows(w, g, Of(rs, j, 0), Of(rs, j, 1), event);
  }

  lemma BridgeShows(w: World, g: Mesh, v: View, u: View, event: Event)
    requires Bound(g, v, u) && AllSane(g) && v.partner.None? && event.Local?
    requires event.p == v.path[|v.path| - 1].peer
    requires var a, b := Back(v, |v.path| - 1), Back(u, |u.path| - 1);
             event.op == TableOp.BridgeLegs(a, b) || event.op == TableOp.BridgeLegs(b, a)
    ensures var a, b := Back(v, |v.path| - 1), Back(u, |u.path| - 1);
            && Cautious(w, g, event)
            && Shows(Do(w, g, event), v.(partner := Some(b))) && Shows(Do(w, g, event), u.(partner := Some(a)))
  {
    hide Shows, AllSane, Reserved, Clear, Bridge;
    var a, b := Back(v, |v.path| - 1), Back(u, |u.path| - 1);
    ClearLeg(v, u, |v.path| - 1);
    ClearLeg(u, v, |u.path| - 1);
    RoutesDown(g, v, |v.path| - 1);
    RoutesDown(g, u, |u.path| - 1);
    BridgedShows(g, v, b);
    BridgedShows(g, u, a);
    OwnBack(v, |v.path| - 1);
    BridgeBothWays(At(g, v.path[|v.path| - 1].peer).rendezvousBridges, a, b);
  }

  lemma OwnBack(v: View, i: nat)
    requires i < |v.path|
    ensures Reserved(v, v.path[i].peer, Back(v, i))
  {
    assert Passes(v, i, v.path[i].peer, Before(v, i), v.path[i].circ);
  }

  lemma BuiltView(n: R.Net)
    requires n.path != [] && n.create.None? && n.created.None?
    ensures LineView(S.LineOf(n), RouteOf(n), None) == ViewOf(n)
  {
  }

  /** Two built circuits that end at one node. */
  lemma MakesPair(w: World, g: Mesh, c: R.Net, h: R.Net, layers: seq<HopState>)
    requires Shows(g, ViewOf(c)) && Shows(g, ViewOf(h)) && S.Built(w, c) && S.Built(w, h) && |layers| == 2
    requires !(c.home == h.home && c.client.id == h.client.id)
    requires c.path != [] && h.path != [] && c.path[|c.path| - 1].peer == h.path[|h.path| - 1].peer
    ensures Pair(g, [RouteOf(c), RouteOf(h)], S.Apart(c, h, layers))
  {
    BuiltTame(w, c);
    BuiltTame(w, h);
    BuiltView(c);
    BuiltView(h);
    hide Shows, Tame, S.Built, LineView, ViewOf;
  }

  /** A circuit of a network that began empty. */
  ghost predicate Grown(w: World, g: Mesh, n: R.Net) {
    exists before, g0, p, guard, xPriv, now, events :: Followed(w, before, g0, p, guard, xPriv, now, events, g, n)
  }

  lemma GrownShows(w: World, g: Mesh, n: R.Net)
    requires DhLaw(w.d) && Grown(w, g, n)
    ensures Shows(g, ViewOf(n)) && AllSane(g) && Good(w, n)
  {
    hide Followed, Shows, AllSane, Good;
    var before, g0, p, guard, xPriv, now, events :| Followed(w, before, g0, p, guard, xPriv, now, events, g, n);
    FollowedShows(w, before, g0, p, guard, xPriv, now, events, g, n);
  }

  /** Both circuits built and at rest, of different clients, and ending at one node. */
  predicate Meet(c: R.Net, h: R.Net) {
    && c.client.pending.None? && c.client.hops != [] && h.client.pending.None? && h.client.hops != []
    && !(c.home == h.home && c.client.id == h.client.id)
    && c.path != [] && h.path != [] && c.path[|c.path| - 1].peer == h.path[|h.path| - 1].peer
  }

  lemma RestIsBuilt(w: World, n: R.Net)
    requires Good(w, n) && n.client.pending.None? && n.client.hops != []
    ensures S.Built(w, n)
  {
    hide Steady, AtStage;
    IdleIfNonePending(w, n);
  }

  function RoutesOf(c: R.Net, h: R.Net): (rs: seq<Route>)
    requires Meet(c, h)
    ensures |rs| == 2
  {
    [RouteOf(c), RouteOf(h)]
  }

  /** Spliced delivery in the network. Take any two circuits of any network, built and ending at one node. The
      service installs its layer, the node bridges their legs and the client completes, whenever they come to
      it, while cells of both circuits, and of any number of others, are under way on the same nodes and
      connections. Whatever happens, every hop of both circuits is in step, and the managers and connections
      hold just these two circuits. In each direction, unless one of its cells got to the node before it was
      bridged, or to an end that had no layer yet, everything said has arrived at the other end, unchanged and
      in order, but for what is still in flight; otherwise nothing has. */
  lemma NetworkSplicedDelivery(
    w: World, g: Mesh, c: R.Net, h: R.Net, bSecret: Key32, xPriv: Key32, yPriv: Key32, clientKeys: E2EKeys, hsKeys: E2EKeys,
    events: seq<Event>, g': Mesh, j': S.Joined)
    requires DhLaw(w.d) && Grown(w, g, c) && Grown(w, g, h) && Meet(c, h)
    requires S.Handshaken(w.d, w.l, bSecret, xPriv, yPriv, clientKeys, hsKeys)
    requires FollowsPair(w, g, RoutesOf(c, h), S.Apart(c, h, S.LayersOf(clientKeys, hsKeys)), events, g', j')
    ensures S.Delivered(j') && Pair(g', RoutesOf(c, h), j') && AllSane(g')
    ensures |j'.lost| == 2 && forall x: nat :: x < 2 ==>
      (j'.lost[x] <==> LostAmong(w, g, RoutesOf(c, h), events, x))
  {
    hide Shows, AllSane, S.Built, Good, Grown, FollowsPair, Pair, S.Handshaken, S.Delivered, S.Good, S.LayersOf, LostAmong,
         RoutesOf, S.Agreed, S.Apart, ViewOf;
    GrownShows(w, g, c);
    GrownShows(w, g, h);
    RestIsBuilt(w, c);
    RestIsBuilt(w, h);
    S.HandshakenAgreed(w.d, w.l, bSecret, xPriv, yPriv, clientKeys, hsKeys);
    StartsPair(w, g, c, h, S.LayersOf(clientKeys, hsKeys));
    JoiningRun(w, g, RoutesOf(c, h), S.Apart(c, h, S.LayersOf(clientKeys, hsKeys)), events, g', j');
  }

  /** What a run keeps and what it loses. */
  lemma JoiningRun(w: World, g: Mesh, rs: seq<Route>, j: S.Joined, events: seq<Event>, g': Mesh, j': S.Joined)
    requires |rs| == 2 && Pair(g, rs, j) && AllSane(g) && S.Good(w.s, j) && FollowsPair(w, g, rs, j, events, g', j')
    requires j.lost == [false, false]
    ensures S.Delivered(j') && Pair(g', rs, j') && AllSane(g')
    ensures |j'.lost| == 2 && forall x: nat :: x < 2 ==> (j'.lost[x] <==> LostAmong(w, g, rs, events, x))
  {
    hide Shows, AllSane, FollowsPair, Pair, S.Delivered, S.Good, LostAmong, PairSteps, S.Run, S.Sound;
    PairSound(g, rs, j);
    PairRefines(w, g, rs, j, events, g', j');
    S.GoodDelivered(w.s, j');
    PairSound(g', rs, j');
    LostOnlySo(w, g, rs, j, events, g', j', 0);
    LostOnlySo(w, g, rs, j, events, g', j', 1);
  }

  lemma StartsPair(w: World, g: Mesh, c: R.Net, h: R.Net, layers: seq<HopState>)
    requires Shows(g, ViewOf(c)) && Shows(g, ViewOf(h)) && S.Built(w, c) && S.Built(w, h) && Meet(c, h) && S.Agreed(layers)
    ensures Pair(g, RoutesOf(c, h), S.Apart(c, h, layers)) && S.Good(w.s, S.Apart(c, h, layers))
    ensures S.Apart(c, h, layers).lost == [false, false]
  {
    hide Shows, S.Built, Pair, S.Good, RouteOf;
    MakesPair(w, g, c, h, layers);
    S.ApartGood(w.s, w, c, w, h, layers);
  }

  /** No cell of either circuit is on any of its connections. */
  ghost predicate NothingOnLines(g: Mesh, rs: seq<Route>) {
    forall x, i :: 0 <= x < |rs| && 0 <= i < |rs[x].path| ==> NothingOnLeg(g, rs[x], i)
  }

  predicate NothingOnLeg(g: Mesh, r: Route, i: nat)
    requires i < |r.path|
  {
    var a, b, circ := if i == 0 then r.home else r.path[i - 1].peer, r.path[i].peer, r.path[i].circ;
    NoCells(Link(g, a, b), circ) && NoCells(Link(g, b, a), circ)
  }

  lemma LineEmpty(g: Mesh, v: View)
    requires Shows(g, v) && Full(v) && v.created.None?
    requires forall i :: 0 <= i < |v.path| ==>
      && NoCells(Link(g, Before(v, i), v.path[i].peer), v.path[i].circ)
      && NoCells(Link(g, v.path[i].peer, Before(v, i)), v.path[i].circ)
    ensures P.Empty(v.down) && P.Empty(v.up)
  {
    FormedSizes(v);
    hide Formed, On;
    forall i | 0 <= i < |v.path|
      ensures v.down[i] == [] && v.up[i] == []
    {
      assert LinksAt(g, v, i);
      OnNone(Link(g, Before(v, i), v.path[i].peer), v.path[i].circ);
      OnNone(Link(g, v.path[i].peer, Before(v, i)), v.path[i].circ);
    }
  }

  /** Once none of their cells is on any connection, everything said at one end has been heard at the other
      exactly if nothing was lost, and otherwise nothing has been heard. */
  lemma NetworkAllDelivered(g: Mesh, rs: seq<Route>, j: S.Joined, x: nat)
    requires Pair(g, rs, j) && AllSane(g) && S.Delivered(j) && NothingOnLines(g, rs) && x < 2
    ensures j.heard[1 - x] == j.said[x] <==> !j.lost[x]
    ensures j.lost[x] ==> j.heard[1 - x] == []
  {
    hide Pair, Shows, AllSane, Tame, S.AllOrNothing, S.Whole, NothingOnLines, S.InStep, Bound;
    PairBound(g, rs, j, x);
    NothingEmpty(g, rs, j, x);
    NothingEmpty(g, rs, j, 1 - x);
    S.AllDelivered(j, x);
  }

  lemma NothingEmpty(g: Mesh, rs: seq<Route>, j: S.Joined, x: nat)
    requires Pair(g, rs, j) && AllSane(g) && NothingOnLines(g, rs) && x < 2 && |rs| == 2 == |j.lines|
    ensures P.Empty(j.lines[x].down) && P.Empty(j.lines[x].up)
  {
    hide Pair, Shows, AllSane, Tame, NoCells, Link;
    PairBound(g, rs, j, x);
    var v := Of(rs, j, x);
    BoundShows(g, v, Of(rs, j, 1 - x));
    forall i | 0 <= i < |v.path|
      ensures NoCells(Link(g, Before(v, i), v.path[i].peer), v.path[i].circ)
              && NoCells(Link(g, v.path[i].peer, Before(v, i)), v.path[i].circ)
    {
      assert NothingOnLeg(g, rs[x], i);
    }
    LineEmpty(g, v);
  }
}

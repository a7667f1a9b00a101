/** What the network shows of a circuit as it begins and grows. */
module NetworkGrow {
  import opened Wrappers
  import opened Bytes
  import opened Circuit
  import opened Ntor
  import opened CircuitState
  import opened CircuitRun
  import opened ManagerTables
  import opened Network
  import opened NetworkView
  import opened NetworkFrame
  import opened NetworkElsewhere
  import opened NetworkOwn

  // ── A relay circuit at the end of the path ──────────────────────────

  function WithRelay(v: View, r: RelayCircuit): View {
    v.(relays := v.relays + [r], down := v.down + [[]], up := v.up + [[]])
  }

  lemma KeyedWithRelay(v: View, r: RelayCircuit)
    requires Keyed(v) && |v.path| == |v.relays| + 1
    requires Leg(r.prevPeer, r.prevCircId) == Back(v, |v.relays|) && r.nextPeer.None?
    ensures Keyed(WithRelay(v, r))
  {
    var v' := WithRelay(v, r);
    forall i | 0 <= i < |v'.relays|
      ensures && Leg(v'.relays[i].prevPeer, v'.relays[i].prevCircId) == Back(v', i)
              && (if i + 1 < |v'.path| then v'.relays[i].Next() == Some(v'.path[i + 1]) else v'.relays[i].nextPeer.None?)
    {
      if i < |v.relays| {
        assert v'.relays[i] == v.relays[i];
      }
    }
  }

  lemma FormedWithRelay(v: View, r: RelayCircuit)
    requires Formed(v) && |v.path| == |v.relays| + 1 && v.create.None?
    requires Leg(r.prevPeer, r.prevCircId) == Back(v, |v.relays|) && r.nextPeer.None?
    ensures Formed(WithRelay(v, r))
  {
    hide Apart, Keyed, Back;
    ApartSame(v, WithRelay(v, r));
    KeyedWithRelay(v, r);
  }

  /** Elsewhere than at the new entry's node nothing changes. */
  lemma GrownElsewhere(v: View, v': View, r: RelayCircuit, x: PeerId, m: Mgr)
    requires v.path != [] && |v.path| == |v.relays| + 1 && v.partner.None? && v' == WithRelay(v, r) && ShownAt(v, x, m)
    requires x != v.path[|v.relays|].peer
    ensures ShownAt(v', x, m)
  {
    forall i | 0 <= i < |v'.path| && x == v'.path[i].peer
      ensures AtNode(v', i, m)
    {
      assert AtNode(v, i, m);
    }
    forall i | 0 <= i < |v'.path| && x == Before(v', i)
      ensures AtBefore(v', i, m)
    {
      assert AtBefore(v, i, m);
    }
  }

  lemma NewBack(v: View, i: nat, x: PeerId)
    requires Formed(v) && |v.path| == |v.relays| + 1 && i < |v.path| && x == v.path[|v.relays|].peer
    ensures i < |v.relays| && x == v.path[i].peer ==> Back(v, i) != Back(v, |v.relays|)
    ensures x == Before(v, i) ==> v.path[i] != Back(v, |v.relays|)
  {
    var k := |v.relays|;
    if i < k {
      OnlyHere(v, i, k);
    }
    Ends(v, k);
  }

  lemma GrownHere(g: Mesh, v: View, r: RelayCircuit)
    requires Formed(v) && TablesShown(g, v) && |v.path| == |v.relays| + 1 && v.partner.None?
    ensures var x := v.path[|v.relays|].peer;
            var m := At(g, x);
            ShownAt(WithRelay(v, r), x, m.(relays := m.relays[Back(v, |v.relays|) := r]))
  {
    hide Formed, AtHome, AtOther;
    FormedParts(v);
    var k, v' := |v.relays|, WithRelay(v, r);
    var x := v.path[k].peer;
    var m := At(g, x);
    var m' := m.(relays := m.relays[Back(v, k) := r]);
    assert ShownAt(v, x, m);
    forall i | 0 <= i < |v'.path| && x == v'.path[i].peer
      ensures AtNode(v', i, m')
    {
      assert AtNode(v, i, m);
      NewBack(v, i, x);
    }
    forall i | 0 <= i < |v'.path| && x == Before(v', i)
      ensures AtBefore(v', i, m')
    {
      assert AtBefore(v, i, m);
      NewBack(v, i, x);
    }
    NewNotHome(g, v, k);
    HomeOtherGrown(v, v', x, m, m', Back(v, k));
  }

  /** The id of a later connection is not the client's where the client could take it for its own. */
  lemma NewNotHome(g: Mesh, v: View, k: nat)
    requires Formed(v) && TablesShown(g, v) && k < |v.path|
    ensures v.path[k].peer == v.home ==> v.path[k].circ != v.origin.id
    ensures k > 0 && Before(v, k) == v.home ==> v.path[k].circ != v.origin.id
  {
    hide Formed, AtOther;
    FormedParts(v);
    var m := At(g, v.home);
    assert ShownAt(v, v.home, m);
    if v.path[k].peer == v.home {
      assert AtNode(v, k, m);
    }
    if k > 0 && Before(v, k) == v.home {
      assert AtBefore(v, k, m);
    }
  }

  lemma HomeOtherGrown(v: View, v': View, x: PeerId, m: Mgr, m': Mgr, leg: Leg)
    requires v.path != [] && v'.home == v.home && v'.path == v.path && v'.origin == v.origin
    requires AtOther(v, x, m) && (x == v.home ==> AtHome(v, m))
    requires m' == m.(relays := m'.relays) && m'.relays.Keys == m.relays.Keys + {leg}
    requires x == v.home ==> leg.circ != v.origin.id
    requires x != v.path[0].peer && leg.peer == v.home ==> leg.circ != v.origin.id
    ensures AtOther(v', x, m') && (x == v.home ==> AtHome(v', m'))
  {
  }

  lemma LinksAtGrown(g: Mesh, g': Mesh, v: View, r: RelayCircuit, i: nat)
    requires Formed(v) && i < |v.path| && LinksAt(g, v, i) && g'.links == g.links && Formed(WithRelay(v, r))
    requires |v.path| == |v.relays| + 1 && |v.down| == |v.up| == |v.relays| && v.create.None? && v.created.None?
    ensures LinksAt(g', WithRelay(v, r), i)
  {
    hide Formed, On;
    var v' := WithRelay(v, r);
    var x, y, circ := Before(v, i), v.path[i].peer, v.path[i].circ;
    assert Link(g', x, y) == Link(g, x, y) && Link(g', y, x) == Link(g, y, x);
    assert DownAt(v', i, On(Link(g, x, y), circ));
    assert UpAt(v', i, On(Link(g, y, x), circ));
  }

  lemma LinksGrown(g: Mesh, g': Mesh, v: View, r: RelayCircuit)
    requires Formed(v) && LinksShown(g, v) && g'.links == g.links && Formed(WithRelay(v, r))
    requires |v.path| == |v.relays| + 1 && v.create.None? && v.created.None?
    ensures LinksShown(g', WithRelay(v, r))
  {
    hide Formed, On, LinksAt;
    FormedSizes(v);
    var v' := WithRelay(v, r);
    forall i | 0 <= i < |v'.path|
      ensures LinksAt(g', v', i)
    {
      LinksAtGrown(g, g', v, r, i);
    }
    assert forall x, y :: Link(g', x, y) == Link(g, x, y);
  }

  lemma GrowRelay(g: Mesh, v: View, r: RelayCircuit)
    requires Shows(g, v) && |v.path| == |v.relays| + 1 && v.create.None? && v.created.None? && v.partner.None?
    requires Leg(r.prevPeer, r.prevCircId) == Back(v, |v.relays|) && r.nextPeer.None?
    ensures var x := v.path[|v.relays|].peer;
            var m := At(g, x);
            Shows(WithMgr(g, x, m.(relays := m.relays[Back(v, |v.relays|) := r])), WithRelay(v, r))
  {
    hide Formed, ShownAt, LinksShown;
    FormedParts(v);
    FormedWithRelay(v, r);
    var x, v' := v.path[|v.relays|].peer, WithRelay(v, r);
    var m := At(g, x);
    var g' := WithMgr(g, x, m.(relays := m.relays[Back(v, |v.relays|) := r]));
    LinksGrown(g, g', v, r);
    forall y
      ensures ShownAt(v', y, At(g', y))
    {
      assert ShownAt(v, y, At(g, y));
      if y == x {
        GrownHere(g, v, r);
      } else {
        GrownElsewhere(v, v', r, y, At(g, y));
      }
    }
  }

  // ── A leg onward ────────────────────────────────────────────────────

  /** The last relay circuit has been given an onward leg. */
  function WithNext(v: View, r: RelayCircuit, next: Leg): View
    requires v.relays != []
  {
    v.(path := v.path + [next], relays := v.relays[|v.relays| - 1 := r])
  }

  function NextMgr(m: Mgr, leg: Leg, r: RelayCircuit, next: Leg): Mgr {
    m.(relays := m.relays[leg := r], relayByNext := m.relayByNext[next := leg])
  }

  predicate NextFits(v: View, r: RelayCircuit, next: Leg) {
    && v.relays != [] && |v.path| == |v.relays| && v.create.None? && v.partner.None?
    && var last := v.relays[|v.relays| - 1];
    && r.prevPeer == last.prevPeer && r.prevCircId == last.prevCircId && r.Next() == Some(next)
  }

  /** A fresh leg is between no two nodes between which the circuit passes under that id. */
  lemma FreshApart(g: Mesh, v: View, i: nat, x: PeerId, next: Leg)
    requires i < |v.path| && Back(v, i) in At(g, v.path[i].peer).relays && FreshBetween(g, x, next.peer, next.circ)
    ensures !Passes(v, i, x, next.peer, next.circ)
  {
  }

  lemma PassesOld(v: View, v': View, i: nat, j: nat)
    requires i < j < |v.path| && v'.home == v.home && |v.path| < |v'.path| && v'.path[..|v.path|] == v.path
    ensures Before(v', i) == Before(v, i) && v'.path[i] == v.path[i] && Before(v', j) == Before(v, j) && v'.path[j] == v.path[j]
    ensures Passes(v', j, Before(v', i), v'.path[i].peer, v'.path[i].circ)
         == Passes(v, j, Before(v, i), v.path[i].peer, v.path[i].circ)
  {
    assert forall k :: 0 <= k < |v.path| ==> v'.path[k] == v'.path[..|v.path|][k];
  }

  lemma PassesNew(v: View, v': View, i: nat, next: Leg)
    requires i < |v.path| && v'.home == v.home && v'.path == v.path + [next]
    requires Passes(v', |v.path|, Before(v', i), v'.path[i].peer, v'.path[i].circ)
    ensures Passes(v, i, v.path[|v.path| - 1].peer, next.peer, next.circ)
  {
  }

  lemma OnceWithNext(g: Mesh, v: View, v': View, next: Leg, i: nat, j: nat)
    requires Apart(v) && v.path != [] && v'.home == v.home && v'.path == v.path + [next] && i < j <= |v.path|
    requires Back(v, i) in At(g, v.path[i].peer).relays
    requires FreshBetween(g, v.path[|v.path| - 1].peer, next.peer, next.circ)
    ensures !Passes(v', j, Before(v', i), v'.path[i].peer, v'.path[i].circ)
  {
    hide FreshBetween, Passes, Back, Before;
    assert v'.path[..|v.path|] == v.path;
    if j < |v.path| {
      PassesOld(v, v', i, j);
    } else {
      FreshApart(g, v, i, v.path[|v.path| - 1].peer, next);
      if Passes(v', j, Before(v', i), v'.path[i].peer, v'.path[i].circ) {
        PassesNew(v, v', i, next);
      }
    }
  }

  lemma ApartEnds(v: View, i: nat)
    requires Apart(v) && i < |v.path|
    ensures Before(v, i) != v.path[i].peer
  {
  }

  lemma EndsWithNext(v: View, v': View, next: Leg, i: nat)
    requires v.path != [] && v'.home == v.home && v'.path == v.path + [next] && i <= |v.path|
    requires if i < |v.path| then Before(v, i) != v.path[i].peer else v.path[|v.path| - 1].peer != next.peer
    ensures Before(v', i) != v'.path[i].peer
  {
    assert forall k :: 0 <= k < |v.path| ==> v'.path[k] == v.path[k];
  }

  lemma ApartWithNext(g: Mesh, v: View, v': View, next: Leg)
    requires Apart(v) && v.path != [] && v'.home == v.home && v'.path == v.path + [next]
    requires forall i :: 0 <= i < |v.path| ==> Back(v, i) in At(g, v.path[i].peer).relays
    requires FreshBetween(g, v.path[|v.path| - 1].peer, next.peer, next.circ)
    ensures Apart(v')
  {
    assert v.path[|v.path| - 1].peer != next.peer;
    hide FreshBetween, Passes, Back, Before;
    forall i | 0 <= i < |v'.path|
      ensures Before(v', i) != v'.path[i].peer
    {
      if i < |v.path| {
        ApartEnds(v, i);
      }
      EndsWithNext(v, v', next, i);
    }
    forall i, j | 0 <= i < j < |v'.path|
      ensures !Passes(v', j, Before(v', i), v'.path[i].peer, v'.path[i].circ)
    {
      OnceWithNext(g, v, v', next, i, j);
    }
  }

  lemma KeyedWithNext(v: View, r: RelayCircuit, next: Leg)
    requires Keyed(v) && NextFits(v, r, next)
    ensures Keyed(WithNext(v, r, next))
  {
    var v' := WithNext(v, r, next);
    forall i | 0 <= i < |v'.relays|
      ensures Leg(v'.relays[i].prevPeer, v'.relays[i].prevCircId) == Back(v', i) && v'.relays[i].Next() == Some(v'.path[i + 1])
    {
      assert Leg(v.relays[i].prevPeer, v.relays[i].prevCircId) == Back(v, i);
    }
  }

  lemma HasRelays(g: Mesh, v: View)
    requires Formed(v) && TablesShown(g, v)
    ensures |v.relays| <= |v.path| && v.path != []
    ensures forall i :: 0 <= i < |v.relays| ==> Holds(At(g, v.path[i].peer).relays, Back(v, i), v.relays[i])
  {
    hide Formed, AtHome, AtOther, AtBefore;
    FormedParts(v);
    forall i | 0 <= i < |v.relays|
      ensures Holds(At(g, v.path[i].peer).relays, Back(v, i), v.relays[i])
    {
      assert ShownAt(v, v.path[i].peer, At(g, v.path[i].peer));
      assert AtNode(v, i, At(g, v.path[i].peer));
    }
  }

  lemma FormedWithNext(g: Mesh, v: View, r: RelayCircuit, next: Leg)
    requires Formed(v) && TablesShown(g, v) && NextFits(v, r, next)
    requires FreshBetween(g, v.path[|v.path| - 1].peer, next.peer, next.circ)
    ensures Formed(WithNext(v, r, next))
  {
    hide Apart, Keyed, FreshBetween, TablesShown;
    HasRelays(g, v);
    ApartWithNext(g, v, WithNext(v, r, next), next);
    KeyedWithNext(v, r, next);
  }

  lemma UsedAtHome(g: Mesh, v: View)
    requires Formed(v) && TablesShown(g, v)
    ensures v.path != [] && v.origin.id in At(g, v.home).origins
  {
    FormedParts(v);
    hide Formed, AtOther;
    assert ShownAt(v, v.home, At(g, v.home));
  }

  /** At every node the old entries stand, the new leg being in nobody's way. */
  lemma NodeWithNext(v: View, r: RelayCircuit, next: Leg, i: nat, m: Mgr)
    requires Formed(v) && NextFits(v, r, next) && i < |v.path| && AtNode(v, i, m)
    ensures AtNode(WithNext(v, r, next), i, m) || i + 1 == |v.path|
    ensures var k := |v.path| - 1;
            v.path[i].peer == v.path[k].peer && Back(v, i) != next ==>
              AtNode(WithNext(v, r, next), i, NextMgr(m, Back(v, k), r, next))
  {
    hide Formed;
    var k := |v.path| - 1;
    if i != k && v.path[i].peer == v.path[k].peer {
      OtherBack(v, i, k);
    }
  }

  /** What a fresh leg is not. */
  lemma NextElsewhere(g: Mesh, v: View, next: Leg, x: PeerId)
    requires Formed(v) && TablesShown(g, v) && FreshBetween(g, x, next.peer, next.circ)
    ensures forall i :: 0 <= i < |v.relays| && i < |v.path| && x == v.path[i].peer ==> Back(v, i) != next
    ensures v.path != [] && (x == v.home || next.peer == v.home ==> next.circ != v.origin.id)
  {
    hide Formed;
    UsedAtHome(g, v);
    HasRelays(g, v);
  }

  /** The manager of the last node, and every other. */
  function MgrWithNext(g: Mesh, v: View, r: RelayCircuit, next: Leg, x: PeerId): Mgr
    requires v.path != []
  {
    var k := |v.path| - 1;
    if x == v.path[k].peer then NextMgr(At(g, x), Back(v, k), r, next) else At(g, x)
  }

  lemma NewNode(g: Mesh, v: View, r: RelayCircuit, next: Leg)
    requires NextFits(v, r, next) && v.path != []
    requires FreshBetween(g, v.path[|v.path| - 1].peer, next.peer, next.circ)
    ensures AtNode(WithNext(v, r, next), |v.path|, MgrWithNext(g, v, r, next, next.peer))
  {
  }

  lemma NewBefore(g: Mesh, v: View, r: RelayCircuit, next: Leg)
    requires NextFits(v, r, next) && v.path != []
    requires FreshBetween(g, v.path[|v.path| - 1].peer, next.peer, next.circ)
    requires Back(v, |v.path| - 1) in At(g, v.path[|v.path| - 1].peer).relays
    ensures AtBefore(WithNext(v, r, next), |v.path|, MgrWithNext(g, v, r, next, v.path[|v.path| - 1].peer))
  {
  }

  lemma ShownNode(g: Mesh, v: View, i: nat)
    requires Formed(v) && TablesShown(g, v) && i < |v.path|
    ensures AtNode(v, i, At(g, v.path[i].peer)) && AtBefore(v, i, At(g, Before(v, i)))
  {
    FormedParts(v);
    hide Formed, AtNode, AtBefore, AtHome, AtOther;
    assert ShownAt(v, v.path[i].peer, At(g, v.path[i].peer));
    assert ShownAt(v, Before(v, i), At(g, Before(v, i)));
  }

  lemma NodesWithNext(g: Mesh, v: View, r: RelayCircuit, next: Leg, i: nat)
    requires Formed(v) && TablesShown(g, v) && NextFits(v, r, next) && v.path != [] && v.relays != [] && |v.path| == |v.relays|
    requires FreshBetween(g, v.path[|v.path| - 1].peer, next.peer, next.circ)
    requires i <= |v.path|
    ensures var x := (v.path + [next])[i].peer;
            AtNode(WithNext(v, r, next), i, MgrWithNext(g, v, r, next, x))
  {
    hide Formed, AtNode, FreshBetween, NextMgr, TablesShown, NextFits, WithNext, Back;
    if i == |v.path| {
      NewNode(g, v, r, next);
    } else {
      NextElsewhere(g, v, next, v.path[|v.path| - 1].peer);
      ShownNode(g, v, i);
      NodeWithNext(v, r, next, i, At(g, v.path[i].peer));
    }
  }

  lemma OldBefore(v: View, r: RelayCircuit, next: Leg, i: nat, m: Mgr)
    requires v.relays != [] && i < |v.path| && AtBefore(v, i, m)
    ensures AtBefore(WithNext(v, r, next), i, m)
  {
  }

  lemma BeforeNextMgr(v: View, r: RelayCircuit, next: Leg, i: nat, m: Mgr, leg: Leg)
    requires i < |v.path| && AtBefore(v, i, m) && v.path[i] != leg && (i == 0 ==> v.path[0] != next)
    ensures AtBefore(v, i, NextMgr(m, leg, r, next))
  {
  }

  lemma BeforesWithNext(g: Mesh, v: View, r: RelayCircuit, next: Leg, i: nat)
    requires Formed(v) && TablesShown(g, v) && NextFits(v, r, next) && v.path != [] && v.relays != [] && |v.path| == |v.relays|
    requires FreshBetween(g, v.path[|v.path| - 1].peer, next.peer, next.circ)
    requires i <= |v.path|
    ensures var x := if i < |v.path| then Before(v, i) else v.path[i - 1].peer;
            AtBefore(WithNext(v, r, next), i, MgrWithNext(g, v, r, next, x))
  {
    hide Formed, AtBefore, FreshBetween, NextMgr, TablesShown, NextFits, WithNext, Back;
    HasRelays(g, v);
    if i == |v.path| {
      NewBefore(g, v, r, next);
    } else {
      var x, last := Before(v, i), v.path[|v.path| - 1].peer;
      ShownNode(g, v, i);
      FirstNotNext(g, v, next);
      if x == last {
        LastNotOnward(g, v, i);
        BeforeNextMgr(v, r, next, i, At(g, x), Back(v, |v.path| - 1));
      }
      OldBefore(v, r, next, i, MgrWithNext(g, v, r, next, x));
    }
  }

  lemma LastNotOnward(g: Mesh, v: View, i: nat)
    requires Formed(v) && TablesShown(g, v) && |v.path| == |v.relays| && i < |v.path| && Before(v, i) == v.path[|v.path| - 1].peer
    ensures v.path[i] != Back(v, |v.path| - 1)
  {
    HasRelays(g, v);
    ShownNode(g, v, i);
  }

  lemma FirstNotNext(g: Mesh, v: View, next: Leg)
    requires Formed(v) && TablesShown(g, v) && v.path != [] && FreshBetween(g, v.path[|v.path| - 1].peer, next.peer, next.circ)
    ensures v.path[|v.path| - 1].peer == v.home ==> v.path[0] != next
  {
    NextElsewhere(g, v, next, v.path[|v.path| - 1].peer);
    FormedParts(v);
  }

  lemma RestWithNext(g: Mesh, v: View, r: RelayCircuit, next: Leg, x: PeerId)
    requires Formed(v) && TablesShown(g, v) && NextFits(v, r, next) && v.path != []
    requires FreshBetween(g, v.path[|v.path| - 1].peer, next.peer, next.circ)
    ensures var v' := WithNext(v, r, next);
            var m' := MgrWithNext(g, v, r, next, x);
            AtOther(v', x, m') && (x == v.home ==> AtHome(v', m'))
  {
    hide Formed, AtNode, AtBefore;
    var k := |v.path| - 1;
    NextElsewhere(g, v, next, v.path[k].peer);
    HasRelays(g, v);
    assert ShownAt(v, x, At(g, x));
    assert WithNext(v, r, next).path[0] == v.path[0];
  }

  lemma TablesWithNext(g: Mesh, g': Mesh, v: View, r: RelayCircuit, next: Leg)
    requires Formed(v) && TablesShown(g, v) && NextFits(v, r, next) && v.path != [] && v.relays != [] && |v.path| == |v.relays|
    requires Formed(WithNext(v, r, next)) && FreshBetween(g, v.path[|v.path| - 1].peer, next.peer, next.circ)
    requires forall x :: At(g', x) == MgrWithNext(g, v, r, next, x)
    ensures TablesShown(g', WithNext(v, r, next))
  {
    hide Formed, AtNode, AtBefore, AtHome, AtOther, FreshBetween, NextFits, MgrWithNext;
    var v' := WithNext(v, r, next);
    forall x
      ensures ShownAt(v', x, At(g', x))
    {
      forall i | 0 <= i < |v'.path| && x == v'.path[i].peer
        ensures AtNode(v', i, At(g', x))
      {
        NodesWithNext(g, v, r, next, i);
      }
      forall i | 0 <= i < |v'.path| && x == Before(v', i)
        ensures AtBefore(v', i, At(g', x))
      {
        BeforesWithNext(g, v, r, next, i);
      }
      RestWithNext(g, v, r, next, x);
    }
  }

  lemma OldLinkWithNext(g: Mesh, g': Mesh, v: View, v': View, i: nat)
    requires Formed(v) && Formed(v') && i < |v.relays| == |v'.relays| == |v.path| < |v'.path| && LinksAt(g, v, i)
    requires v'.path[..|v.path|] == v.path && v'.home == v.home && g'.links == g.links
    requires v'.down == v.down && v'.up == v.up && v'.created == v.created && |v.down| == |v.up| == |v.relays|
    ensures LinksAt(g', v', i)
  {
    hide Formed, On;
    assert forall k :: 0 <= k < |v.path| ==> v'.path[k] == v'.path[..|v.path|][k];
    var x, y, circ := Before(v, i), v.path[i].peer, v.path[i].circ;
    assert Link(g', x, y) == Link(g, x, y) && Link(g', y, x) == Link(g, y, x);
    assert DownAt(v', i, On(Link(g, x, y), circ));
    assert UpAt(v', i, On(Link(g, y, x), circ));
  }

  lemma LinksWithNext(g: Mesh, g': Mesh, v: View, v': View, next: Leg)
    requires Formed(v) && Formed(v') && LinksShown(g, v) && |v.relays| == |v'.relays| == |v.path| && v.path != []
    requires v'.path == v.path + [next] && v'.home == v.home && v'.origin == v.origin && g'.links == g.links
    requires v'.down == v.down && v'.up == v.up && v'.created == v.created && v'.create.None?
    requires FreshBetween(g, v.path[|v.path| - 1].peer, next.peer, next.circ)
    ensures LinksShown(g', v')
  {
    hide Formed, On, LinksAt;
    FormedSizes(v);
    assert v'.path[..|v.path|] == v.path;
    assert forall x, y :: Link(g', x, y) == Link(g, x, y);
    forall i | 0 <= i < |v'.path|
      ensures LinksAt(g', v', i)
    {
      if i < |v.path| {
        OldLinkWithNext(g, g', v, v', i);
      } else {
        NewLink(g, g', v', next);
      }
    }
  }

  lemma NewLink(g: Mesh, g': Mesh, v: View, next: Leg)
    requires Formed(v) && |v.path| == |v.relays| + 1 && v.relays != [] && v.path[|v.relays|] == next && v.create.None?
    requires g'.links == g.links && FreshBetween(g, v.path[|v.relays| - 1].peer, next.peer, next.circ)
    ensures LinksAt(g', v, |v.relays|)
  {
    hide Formed, On;
    var x, y := v.path[|v.relays| - 1].peer, next.peer;
    assert Link(g', x, y) == Link(g, x, y) && Link(g', y, x) == Link(g, y, x);
    OnNone(Link(g, x, y), next.circ);
    OnNone(Link(g, y, x), next.circ);
  }

  /** The CREATE sets out. */
  lemma PushCreate(g: Mesh, v: View, i: nat, cell: Cell, msg: ClientMsg)
    requires Shows(g, v) && i == |v.relays| < |v.path| && v.create.None? && IsCreate(cell, msg) && cell.circId == v.path[i].circ
    ensures Shows(Push(g, Before(v, i), v.path[i].peer, cell), v.(create := Some(msg)))
  {
    hide Apart, Keyed, On, Shows, Push;
    var v' := v.(create := Some(msg));
    ShownLinks(g, v, i);
    assert Formed(v') by {
      ApartSame(v, v');
      KeyedSame(v, v');
    }
    Ends(v, i);
    PushLink(g, Before(v, i), v.path[i].peer, cell);
    PushOwn(g, v, v', i, Before(v, i), v.path[i].peer, cell);
  }

  /** The last relay circuit is extended over a fresh leg. */
  lemma GrowNext(g: Mesh, v: View, r: RelayCircuit, next: Leg, cell: Cell, msg: ClientMsg)
    requires Shows(g, v) && NextFits(v, r, next) && |v.path| == |v.relays| && v.path != []
    requires FreshBetween(g, v.path[|v.path| - 1].peer, next.peer, next.circ)
    requires IsCreate(cell, msg) && cell.circId == next.circ
    ensures var k := |v.path| - 1;
            var last := v.path[k].peer;
            Shows(Push(WithMgr(g, last, NextMgr(At(g, last), Back(v, k), r, next)), last, next.peer, cell),
                  WithNext(v, r, next).(create := Some(msg)))
  {
    hide Formed, TablesShown, LinksShown, FreshBetween, Push;
    var k, v' := |v.path| - 1, WithNext(v, r, next);
    var last := v.path[k].peer;
    var g1 := WithMgr(g, last, NextMgr(At(g, last), Back(v, k), r, next));
    FormedSizes(v);
    FormedWithNext(g, v, r, next);
    TablesWithNext(g, g1, v, r, next);
    LinksWithNext(g, g1, v, v', next);
    PushCreate(g1, v', |v.relays|, cell, msg);
  }

  // ── A circuit begins ────────────────────────────────────────────────

  /** The circuit's client waits for its guard. */
  function Born(home: PeerId, origin: Origin): View {
    View(home, [Leg(origin.peer, origin.id)], origin, [], [], [], None, None, None)
  }

  function BornMgr(m: Mgr, isHome: bool, origin: Origin, nextId: u32): Mgr {
    if isHome then m.(origins := m.origins[origin.id := origin], nextOriginId := nextId) else m
  }

  lemma BornTables(g: Mesh, g': Mesh, home: PeerId, origin: Origin)
    requires FreshOrigin(g, home, origin.id) && home != origin.peer && origin.id !in At(g, origin.peer).origins
    requires forall x :: At(g', x) == BornMgr(At(g, x), x == home, origin, At(g', x).nextOriginId)
    ensures forall x :: ShownAt(Born(home, origin), x, At(g', x))
  {
    var v := Born(home, origin);
    forall x
      ensures ShownAt(v, x, At(g', x))
    {
      assert ConnFree(g, home, origin.peer, origin.id);
      assert ConnFree(g, home, x, origin.id);
      if x == home {
        forall y | y != origin.peer
          ensures LegFree(At(g', x), Leg(y, origin.id))
        {
          assert ConnFree(g, home, y, origin.id);
        }
      }
    }
  }

  lemma BornLinks(g: Mesh, g': Mesh, home: PeerId, origin: Origin)
    requires FreshOrigin(g, home, origin.id) && home != origin.peer && g'.links == g.links
    requires Formed(Born(home, origin))
    ensures LinksShown(g', Born(home, origin))
  {
    hide On, Formed;
    var v := Born(home, origin);
    assert forall x, y :: Link(g', x, y) == Link(g, x, y);
    forall y
      ensures NoCells(Link(g, home, y), origin.id) && NoCells(Link(g, y, home), origin.id)
    {
      assert ConnFree(g, home, y, origin.id);
    }
    OnNone(Link(g, home, origin.peer), origin.id);
    OnNone(Link(g, origin.peer, home), origin.id);
    assert LinksAt(g', v, 0);
  }

  lemma BornShows(g: Mesh, g': Mesh, home: PeerId, origin: Origin)
    requires FreshOrigin(g, home, origin.id) && home != origin.peer && origin.id !in At(g, origin.peer).origins
    requires g'.links == g.links
    requires forall x :: At(g', x) == BornMgr(At(g, x), x == home, origin, At(g', x).nextOriginId)
    ensures Shows(g', Born(home, origin))
  {
    hide ShownAt, LinksShown, FreshOrigin;
    assert Formed(Born(home, origin));
    BornTables(g, g', home, origin);
    BornLinks(g, g', home, origin);
  }
}

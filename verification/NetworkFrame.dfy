/** What the network shows of one circuit after a table or a connection has changed, elsewhere or at the
    circuit itself. */
module NetworkFrame {
  import opened Wrappers
  import opened Bytes
  import opened Circuit
  import opened Ntor
  import opened CircuitState
  import opened CircuitRun
  import opened ManagerTables
  import opened Network
  import opened NetworkView

  // ── Tables that change elsewhere ────────────────────────────────────

  predicate SameEntry<K, V(==)>(a: map<K, V>, b: map<K, V>, k: K) {
    (k in a <==> k in b) && (k in a ==> a[k] == b[k])
  }

  /** Nothing of the circuit changes from `m` to `m'` at node `x`, and nothing appears that could be
      mistaken for it. */
  ghost predicate Elsewhere(v: View, x: PeerId, m: Mgr, m': Mgr) {
    && (forall leg :: Reserved(v, x, leg) ==>
      && SameEntry(m.relays, m'.relays, leg) && SameEntry(m.rendezvousBridges, m'.rendezvousBridges, leg)
      && (leg in m.relayByNext <==> leg in m'.relayByNext))
    && (forall c :: ReservedOrigin(v, x, c) ==> SameEntry(m.origins, m'.origins, c))
    && (x != v.home && v.origin.id in m'.origins ==> m'.origins[v.origin.id].peer != v.home)
  }

  lemma ReservedHere(v: View, i: nat)
    requires Formed(v) && i < |v.path|
    ensures Reserved(v, v.path[i].peer, Back(v, i)) && Reserved(v, Before(v, i), v.path[i])
    ensures ReservedOrigin(v, v.path[i].peer, v.path[i].circ) && ReservedOrigin(v, Before(v, i), v.path[i].circ)
  {
    assert Passes(v, i, v.path[i].peer, Before(v, i), v.path[i].circ);
    assert Passes(v, i, Before(v, i), v.path[i].peer, v.path[i].circ);
  }

  lemma NodeElsewhere(v: View, i: nat, m: Mgr, m': Mgr)
    requires Formed(v) && i < |v.path| && AtNode(v, i, m) && Elsewhere(v, v.path[i].peer, m, m')
    ensures AtNode(v, i, m')
  {
    hide Reserved, ReservedOrigin, Formed, Before;
    ReservedHere(v, i);
  }

  lemma BeforeElsewhere(v: View, i: nat, m: Mgr, m': Mgr)
    requires Formed(v) && i < |v.path| && AtBefore(v, i, m) && Elsewhere(v, Before(v, i), m, m')
    ensures AtBefore(v, i, m')
  {
    hide Reserved, ReservedOrigin, Formed, Before;
    ReservedHere(v, i);
  }

  lemma HomeElsewhere(v: View, m: Mgr, m': Mgr)
    requires Formed(v) && v.path != [] && AtHome(v, m) && Elsewhere(v, v.home, m, m')
    ensures AtHome(v, m')
  {
    hide Reserved, ReservedOrigin, Formed;
    ReservedHere(v, 0);
    ReservedHome(v, v.home);
    FormedParts(v);
  }

  lemma OtherElsewhere(v: View, x: PeerId, m: Mgr, m': Mgr)
    requires v.path != [] && AtOther(v, x, m) && Elsewhere(v, x, m, m')
    ensures AtOther(v, x, m')
  {
    hide Reserved, ReservedOrigin;
    ReservedHome(v, x);
  }

  lemma ShownElsewhere(v: View, x: PeerId, m: Mgr, m': Mgr)
    requires Formed(v) && v.path != [] && ShownAt(v, x, m) && Elsewhere(v, x, m, m')
    ensures ShownAt(v, x, m')
  {
    hide Formed, Elsewhere, AtNode, AtBefore, AtHome, AtOther;
    forall i | 0 <= i < |v.path| && x == v.path[i].peer
      ensures AtNode(v, i, m')
    {
      NodeElsewhere(v, i, m, m');
    }
    forall i | 0 <= i < |v.path| && x == Before(v, i)
      ensures AtBefore(v, i, m')
    {
      BeforeElsewhere(v, i, m, m');
    }
    if x == v.home {
      HomeElsewhere(v, m, m');
    }
    OtherElsewhere(v, x, m, m');
  }

  lemma FormedParts(v: View)
    requires Formed(v)
    ensures v.path != [] && v.path[0] == Leg(v.origin.peer, v.origin.id) && v.path[0].peer != v.home
    ensures |v.relays| <= |v.path|
  {
    assert Before(v, 0) != v.path[0].peer;
  }

  lemma ReservedHome(v: View, x: PeerId)
    requires v.path != []
    ensures Reserved(v, x, Leg(v.home, v.origin.id))
    ensures forall y :: Reserved(v, v.home, Leg(y, v.origin.id))
  {
  }

  lemma TablesElsewhere(g: Mesh, v: View, x: PeerId, m': Mgr)
    requires Formed(v) && TablesShown(g, v) && Elsewhere(v, x, At(g, x), m')
    ensures TablesShown(WithMgr(g, x, m'), v)
  {
    FormedParts(v);
    hide Elsewhere, ShownAt, Formed;
    ShownElsewhere(v, x, At(g, x), m');
    forall y
      ensures ShownAt(v, y, At(WithMgr(g, x, m'), y))
    {
      assert ShownAt(v, y, At(g, y));
    }
  }

  lemma TablesSame(g: Mesh, g': Mesh, v: View)
    requires Formed(v) && TablesShown(g, v) && g'.mgrs == g.mgrs
    ensures TablesShown(g', v)
  {
    FormedParts(v);
    hide ShownAt, Formed;
    forall x
      ensures ShownAt(v, x, At(g', x))
    {
      assert ShownAt(v, x, At(g, x));
    }
  }

  lemma LinksSame(g: Mesh, g': Mesh, v: View)
    requires Formed(v) && LinksShown(g, v) && g'.links == g.links
    ensures LinksShown(g', v)
  {
    hide On;
    LinksElsewhere(g, g', v);
  }

  // ── Cells that are not the circuit's ────────────────────────────────

  /** A connection whose cells of the circuit's ids have not changed. */
  lemma LinksElsewhere(g: Mesh, g': Mesh, v: View)
    requires Formed(v) && LinksShown(g, v)
    requires forall x, y, circ :: Reserved(v, x, Leg(y, circ)) ==> On(Link(g', x, y), circ) == On(Link(g, x, y), circ)
    ensures LinksShown(g', v)
  {
    hide Reserved, On, Formed, DownAt, UpAt;
    forall i | 0 <= i < |v.path|
      ensures LinksAt(g', v, i)
    {
      ReservedHere(v, i);
      assert LinksAt(g, v, i);
    }
    FormedParts(v);
    forall y | y != v.path[0].peer
      ensures NoCells(Link(g', v.home, y), v.origin.id) && NoCells(Link(g', y, v.home), v.origin.id)
    {
      ReservedHome(v, y);
      OnNone(Link(g, v.home, y), v.origin.id);
      OnNone(Link(g, y, v.home), v.origin.id);
      OnNone(Link(g', v.home, y), v.origin.id);
      OnNone(Link(g', y, v.home), v.origin.id);
    }
  }

  lemma PushElsewhere(g: Mesh, v: View, x: PeerId, y: PeerId, cell: Cell)
    requires Shows(g, v) && !Reserved(v, x, Leg(y, cell.circId))
    ensures Shows(Push(g, x, y, cell), v)
  {
    hide Reserved, On, Formed, DownAt, UpAt, LinksShown, ShownAt;
    var g' := Push(g, x, y, cell);
    forall a, b, circ | Reserved(v, a, Leg(b, circ))
      ensures On(Link(g', a, b), circ) == On(Link(g, a, b), circ)
    {
      OnSnoc(Link(g, x, y), cell, circ);
    }
    LinksElsewhere(g, g', v);
    TablesSame(g, g', v);
  }

  lemma PopElsewhere(g: Mesh, v: View, x: PeerId, y: PeerId)
    requires Shows(g, v) && Link(g, x, y) != [] && !Reserved(v, x, Leg(y, Link(g, x, y)[0].circId))
    ensures Shows(Pop(g, x, y), v)
  {
    hide Reserved, On, Formed, DownAt, UpAt, LinksShown, ShownAt;
    var g' := Pop(g, x, y);
    forall a, b, circ | Reserved(v, a, Leg(b, circ))
      ensures On(Link(g', a, b), circ) == On(Link(g, a, b), circ)
    {
      OnTail(Link(g, x, y), circ);
    }
    LinksElsewhere(g, g', v);
    TablesSame(g, g', v);
  }

  // ── Cells of the circuit ────────────────────────────────────────────

  /** No other connection of the circuit has these two ends and this id. */
  lemma OnlyHere(v: View, i: nat, j: nat)
    requires Formed(v) && i < |v.path| && j < |v.path| && i != j
    ensures !Passes(v, j, Before(v, i), v.path[i].peer, v.path[i].circ)
    ensures !Passes(v, j, v.path[i].peer, Before(v, i), v.path[i].circ)
  {
    if i < j {
      assert !Passes(v, j, Before(v, i), v.path[i].peer, v.path[i].circ);
    } else {
      assert !Passes(v, i, Before(v, j), v.path[j].peer, v.path[j].circ);
    }
  }
}

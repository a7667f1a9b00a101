/** What the network shows of a circuit after one of its own entries or connections has changed. */
module NetworkOwn {
  import opened Wrappers
  import opened Bytes
  import opened Circuit
  import opened Ntor
  import opened CircuitState
  import opened CircuitRun
  import opened ManagerTables
  import opened Network
  import opened NetworkView
  import opened NetworkFrame
  import opened NetworkElsewhere

  // ── Entries ─────────────────────────────────────────────────────────

  /** Two circuits, or the circuit at two times, with the same legs. */
  predicate SameLegs(v: View, v': View) {
    && v'.home == v.home && v'.path == v.path && v'.partner == v.partner
    && v'.origin.id == v.origin.id && v'.origin.peer == v.origin.peer && |v'.relays| == |v.relays|
  }

  predicate SameKeys(r: RelayCircuit, r': RelayCircuit) {
    && r'.prevPeer == r.prevPeer && r'.prevCircId == r.prevCircId
    && r'.nextPeer == r.nextPeer && r'.nextCircId == r.nextCircId
  }

  /** At node `x` nothing shows the difference. */
  lemma ShownSame(v: View, v': View, x: PeerId, m: Mgr)
    requires v.path != [] && SameLegs(v, v') && ShownAt(v, x, m)
    requires x == v.home ==> v'.origin == v.origin
    requires |v.relays| <= |v.path| && forall i :: 0 <= i < |v.relays| && x == v.path[i].peer ==> v'.relays[i] == v.relays[i]
    ensures ShownAt(v', x, m)
  {
    hide Reserved;
    forall i | 0 <= i < |v'.path| && x == v'.path[i].peer
      ensures AtNode(v', i, m)
    {
      assert AtNode(v, i, m);
    }
    forall i | 0 <= i < |v'.path| && x == Before(v', i)
      ensures AtBefore(v', i, m)
    {
      assert AtBefore(v, i, m);
    }
  }

  lemma ApartSame(v: View, v': View)
    requires Apart(v) && v'.home == v.home && v'.path == v.path
    ensures Apart(v')
  {
    forall i, j | 0 <= i < j < |v'.path|
      ensures !Passes(v', j, Before(v', i), v'.path[i].peer, v'.path[i].circ)
    {
      assert !Passes(v, j, Before(v, i), v.path[i].peer, v.path[i].circ);
    }
  }

  lemma KeyedSame(v: View, v': View)
    requires Keyed(v) && v'.home == v.home && v'.path == v.path && |v'.relays| == |v.relays|
    requires forall i :: 0 <= i < |v.relays| ==> SameKeys(v.relays[i], v'.relays[i])
    ensures Keyed(v')
  {
    forall i | 0 <= i < |v.relays|
      ensures && Leg(v'.relays[i].prevPeer, v'.relays[i].prevCircId) == Back(v', i)
              && (if i + 1 < |v'.path| then v'.relays[i].Next() == Some(v'.path[i + 1]) else v'.relays[i].nextPeer.None?)
    {
      assert SameKeys(v.relays[i], v'.relays[i]);
    }
  }

  lemma FormedSame(v: View, v': View)
    requires Formed(v) && SameLegs(v, v') && |v'.down| == |v.down| && |v'.up| == |v.up|
    requires forall i :: 0 <= i < |v.relays| ==> SameKeys(v.relays[i], v'.relays[i])
    requires (v'.create.Some? ==> v.create.Some?) && (v'.created.Some? ==> v.relays != [])
    ensures Formed(v')
  {
    hide Apart, Keyed;
    ApartSame(v, v');
    KeyedSame(v, v');
  }

  lemma FormedLinks(v: View, v': View)
    requires Formed(v) && SameLegs(v, v') && v'.relays == v.relays && |v'.down| == |v.down| && |v'.up| == |v.up|
    requires (v'.create.Some? ==> v.create.Some?) && (v'.created.Some? ==> v.relays != [])
    ensures Formed(v')
  {
    hide Formed;
    FormedSame(v, v');
  }

  /** The relay circuit's own entry. */
  lemma RelayEntry(v: View, v': View, j: nat, m: Mgr)
    requires Formed(v) && j < |v.relays| <= |v.path| && ShownAt(v, v.path[j].peer, m)
    requires SameLegs(v, v') && v'.relays == v.relays[j := v'.relays[j]]
    requires v.path[j].peer == v.home ==> v'.origin == v.origin
    ensures ShownAt(v', v.path[j].peer, m.(relays := m.relays[Back(v, j) := v'.relays[j]]))
  {
    hide Formed, AtHome, AtOther;
    var x := v.path[j].peer;
    var m' := m.(relays := m.relays[Back(v, j) := v'.relays[j]]);
    assert AtNode(v, j, m);
    assert m'.relays.Keys == m.relays.Keys;
    forall i | 0 <= i < |v'.path| && x == v'.path[i].peer
      ensures AtNode(v', i, m')
    {
      assert AtNode(v, i, m);
      if i != j {
        OtherBack(v, i, j);
      }
    }
    forall i | 0 <= i < |v'.path| && x == Before(v', i)
      ensures AtBefore(v', i, m')
    {
      assert AtBefore(v, i, m);
    }
    HomeOtherSame(v, v', x, m, m');
  }

  lemma OtherBack(v: View, i: nat, j: nat)
    requires Formed(v) && i < |v.path| && j < |v.path| && i != j && v.path[i].peer == v.path[j].peer
    ensures Back(v, i) != Back(v, j)
  {
    OnlyHere(v, i, j);
  }

  lemma HomeOtherSame(v: View, v': View, x: PeerId, m: Mgr, m': Mgr)
    requires v.path != [] && SameLegs(v, v') && AtOther(v, x, m) && (x == v.home ==> AtHome(v, m) && v'.origin == v.origin)
    requires m'.relays.Keys == m.relays.Keys && m' == m.(relays := m'.relays)
    ensures AtOther(v', x, m') && (x == v.home ==> AtHome(v', m'))
  {
  }

  lemma TablesRelay(g: Mesh, v: View, v': View, j: nat)
    requires Formed(v) && TablesShown(g, v) && j < |v.relays| && Formed(v')
    requires SameLegs(v, v') && v'.relays == v.relays[j := v'.relays[j]] && v'.origin == v.origin
    ensures var x := v.path[j].peer;
            var m := At(g, x);
            TablesShown(WithMgr(g, x, m.(relays := m.relays[Back(v, j) := v'.relays[j]])), v')
  {
    hide ShownAt, Formed;
    FormedParts(v);
    var x := v.path[j].peer;
    var m := At(g, x);
    var g' := WithMgr(g, x, m.(relays := m.relays[Back(v, j) := v'.relays[j]]));
    forall y
      ensures ShownAt(v', y, At(g', y))
    {
      assert ShownAt(v, y, At(g, y));
      if y == x {
        RelayEntry(v, v', j, m);
      } else {
        ShownSame(v, v', y, At(g, y));
      }
    }
  }

  /** The client's own entry. */
  lemma OriginEntry(v: View, v': View, m: Mgr)
    requires |v.relays| <= |v.path| && v.path != [] && ShownAt(v, v.home, m)
    requires SameLegs(v, v') && v'.relays == v.relays
    ensures ShownAt(v', v.home, m.(origins := m.origins[v.origin.id := v'.origin]))
  {
    hide AtHome, AtOther;
    var m' := m.(origins := m.origins[v.origin.id := v'.origin]);
    OriginKey(v, v', m);
    forall i | 0 <= i < |v'.path| && v.home == v'.path[i].peer
      ensures AtNode(v', i, m')
    {
      assert AtNode(v, i, m);
    }
    forall i | 0 <= i < |v'.path| && v.home == Before(v', i)
      ensures AtBefore(v', i, m')
    {
      assert AtBefore(v, i, m);
    }
  }

  lemma OriginKey(v: View, v': View, m: Mgr)
    requires v.path != [] && AtHome(v, m) && AtOther(v, v.home, m) && SameLegs(v, v')
    ensures var m' := m.(origins := m.origins[v.origin.id := v'.origin]);
            m'.origins.Keys == m.origins.Keys && AtHome(v', m') && AtOther(v', v.home, m')
  {
  }

  lemma TablesOrigin(g: Mesh, v: View, v': View)
    requires Formed(v) && TablesShown(g, v) && Formed(v')
    requires SameLegs(v, v') && v'.relays == v.relays
    ensures var m := At(g, v.home);
            TablesShown(WithMgr(g, v.home, m.(origins := m.origins[v.origin.id := v'.origin])), v')
  {
    hide ShownAt, Formed;
    FormedParts(v);
    var m := At(g, v.home);
    var g' := WithMgr(g, v.home, m.(origins := m.origins[v.origin.id := v'.origin]));
    forall y
      ensures ShownAt(v', y, At(g', y))
    {
      assert ShownAt(v, y, At(g, y));
      if y == v.home {
        OriginEntry(v, v', m);
      } else {
        ShownSame(v, v', y, At(g, y));
      }
    }
  }

  lemma TablesUntouched(g: Mesh, g': Mesh, v: View, v': View)
    requires Formed(v) && TablesShown(g, v) && Formed(v') && g'.mgrs == g.mgrs
    requires SameLegs(v, v') && v'.relays == v.relays && v'.origin == v.origin
    ensures TablesShown(g', v')
  {
    FormedParts(v);
    hide ShownAt, Formed;
    forall y
      ensures ShownAt(v', y, At(g', y))
    {
      assert ShownAt(v, y, At(g, y));
      ShownSame(v, v', y, At(g, y));
    }
  }

  lemma LinksSameView(g: Mesh, g': Mesh, v: View, v': View)
    requires Formed(v) && Formed(v') && LinksShown(g, v) && g'.links == g.links && SameLegs(v, v')
    requires v'.down == v.down && v'.up == v.up && v'.create == v.create && v'.created == v.created
    ensures LinksShown(g', v')
  {
    hide Formed, On;
    FormedParts(v);
    assert forall x, y :: Link(g', x, y) == Link(g, x, y);
    forall i | 0 <= i < |v'.path|
      ensures LinksAt(g', v', i)
    {
      assert LinksAt(g, v, i);
    }
  }

  lemma SetRelay(g: Mesh, v: View, j: nat, r: RelayCircuit)
    requires Shows(g, v) && j < |v.relays| && j < |v.path| && SameKeys(v.relays[j], r)
    ensures var x := v.path[j].peer;
            var m := At(g, x);
            Shows(WithMgr(g, x, m.(relays := m.relays[Back(v, j) := r])), v.(relays := v.relays[j := r]))
  {
    hide Formed, TablesShown, LinksShown;
    var x, v' := v.path[j].peer, v.(relays := v.relays[j := r]);
    var m := At(g, x);
    FormedParts(v);
    FormedCreated(v);
    FormedSame(v, v');
    TablesRelay(g, v, v', j);
    LinksSameView(g, WithMgr(g, x, m.(relays := m.relays[Back(v, j) := r])), v, v');
  }

  lemma FormedCreated(v: View)
    requires Formed(v)
    ensures v.created.Some? ==> v.relays != []
  {
  }

  lemma SetOrigin(g: Mesh, v: View, o: Origin)
    requires Shows(g, v) && o.id == v.origin.id && o.peer == v.origin.peer
    ensures var m := At(g, v.home);
            Shows(WithMgr(g, v.home, m.(origins := m.origins[v.origin.id := o])), v.(origin := o))
  {
    hide Formed, TablesShown, LinksShown;
    var v' := v.(origin := o);
    var m := At(g, v.home);
    FormedCreated(v);
    FormedSame(v, v');
    TablesOrigin(g, v, v');
    LinksSameView(g, WithMgr(g, v.home, m.(origins := m.origins[v.origin.id := o])), v, v');
  }

  // ── Connections ─────────────────────────────────────────────────────

  /** On the client's other connections the circuit does not pass. */
  lemma NotAtHome(g: Mesh, v: View, i: nat, y: PeerId)
    requires Formed(v) && TablesShown(g, v) && i < |v.path| && y != v.path[0].peer
    ensures !Passes(v, i, v.home, y, v.origin.id) && !Passes(v, i, y, v.home, v.origin.id)
  {
    FormedParts(v);
    hide Formed;
    var m := At(g, v.home);
    assert ShownAt(v, v.home, m);
    if i > 0 && v.path[i].peer == v.home {
      assert AtNode(v, i, m);
    }
    if i > 0 && Before(v, i) == v.home {
      assert AtBefore(v, i, m);
    }
  }

  /** Everything but connection `i` is the same in the two. */
  predicate SameBut(v: View, v': View, i: nat) {
    && |v'.down| == |v.down| && |v'.up| == |v.up|
    && (i != |v.relays| ==> v'.create == v.create) && (i + 1 != |v.relays| ==> v'.created == v.created)
    && (forall k :: 0 <= k < |v.down| && k != i ==> v'.down[k] == v.down[k])
    && (forall k :: 0 <= k < |v.up| && k != i ==> v'.up[k] == v.up[k])
  }

  lemma LinksAtSame(g: Mesh, g': Mesh, v: View, v': View, i: nat, j: nat)
    requires Formed(v) && Formed(v') && SameLegs(v, v') && SameBut(v, v', i) && i < |v.path| && j < |v.path| && i != j
    requires LinksAt(g, v, j)
    requires var x, y, circ := Before(v, j), v.path[j].peer, v.path[j].circ;
             && On(Link(g', x, y), circ) == On(Link(g, x, y), circ)
             && On(Link(g', y, x), circ) == On(Link(g, y, x), circ)
    ensures LinksAt(g', v', j)
  {
    FormedSizes(v);
    hide Formed, On;
  }

  lemma LinksOwn(g: Mesh, g': Mesh, v: View, v': View, i: nat)
    requires Shows(g, v) && Formed(v') && SameLegs(v, v') && SameBut(v, v', i) && i < |v.path|
    requires forall x, y, circ :: Reserved(v, x, Leg(y, circ)) && !Passes(v, i, x, y, circ) ==>
      On(Link(g', x, y), circ) == On(Link(g, x, y), circ)
    requires LinksAt(g', v', i)
    ensures LinksShown(g', v')
  {
    hide Formed, On, Reserved, TablesShown, LinksAt, SameBut, Passes;
    FormedSizes(v);
    forall j | 0 <= j < |v'.path|
      ensures LinksAt(g', v', j)
    {
      if j != i {
        assert LinksAt(g, v, j);
        OnlyHere(v, j, i);
        ReservedHere(v, j);
        LinksAtSame(g, g', v, v', i, j);
      }
    }
    forall y | y != v'.path[0].peer
      ensures NoCells(Link(g', v'.home, y), v'.origin.id) && NoCells(Link(g', y, v'.home), v'.origin.id)
    {
      NotAtHome(g, v, i, y);
      ReservedHome(v, y);
      OnNone(Link(g, v.home, y), v.origin.id);
      OnNone(Link(g, y, v.home), v.origin.id);
      OnNone(Link(g', v.home, y), v.origin.id);
      OnNone(Link(g', y, v.home), v.origin.id);
    }
  }

  lemma FormedSizes(v: View)
    requires Formed(v)
    ensures v.path != [] && |v.relays| <= |v.path| <= |v.relays| + 1 && |v.down| == |v.up| == |v.relays|
  {
  }

  /** A cell is put on or taken off one of the circuit's connections. */
  lemma PushOwn(g: Mesh, v: View, v': View, i: nat, x: PeerId, y: PeerId, cell: Cell)
    requires Shows(g, v) && Formed(v') && SameLegs(v, v') && SameBut(v, v', i) && i < |v.path|
    requires v'.relays == v.relays && v'.origin == v.origin && Passes(v, i, x, y, cell.circId)
    requires LinksAt(Push(g, x, y, cell), v', i)
    ensures Shows(Push(g, x, y, cell), v')
  {
    hide Formed, On, Reserved, LinksAt, TablesShown, LinksShown;
    var g' := Push(g, x, y, cell);
    forall a, b, circ | Reserved(v, a, Leg(b, circ)) && !Passes(v, i, a, b, circ)
      ensures On(Link(g', a, b), circ) == On(Link(g, a, b), circ)
    {
      OnSnoc(Link(g, x, y), cell, circ);
    }
    LinksOwn(g, g', v, v', i);
    TablesUntouched(g, g', v, v');
  }

  lemma PopOwn(g: Mesh, v: View, v': View, i: nat, x: PeerId, y: PeerId)
    requires Shows(g, v) && Formed(v') && SameLegs(v, v') && SameBut(v, v', i) && i < |v.path|
    requires v'.relays == v.relays && v'.origin == v.origin
    requires Link(g, x, y) != [] && Passes(v, i, x, y, Link(g, x, y)[0].circId)
    requires LinksAt(Pop(g, x, y), v', i)
    ensures Shows(Pop(g, x, y), v')
  {
    hide Formed, On, Reserved, LinksAt, TablesShown, LinksShown;
    var g' := Pop(g, x, y);
    forall a, b, circ | Reserved(v, a, Leg(b, circ)) && !Passes(v, i, a, b, circ)
      ensures On(Link(g', a, b), circ) == On(Link(g, a, b), circ)
    {
      OnTail(Link(g, x, y), circ);
    }
    LinksOwn(g, g', v, v', i);
    TablesUntouched(g, g', v, v');
  }

  lemma Ends(v: View, i: nat)
    requires Formed(v) && i < |v.path|
    ensures Before(v, i) != v.path[i].peer
    ensures Passes(v, i, Before(v, i), v.path[i].peer, v.path[i].circ) && Passes(v, i, v.path[i].peer, Before(v, i), v.path[i].circ)
  {
  }

  lemma PushLink(g: Mesh, x: PeerId, y: PeerId, cell: Cell)
    requires x != y
    ensures On(Link(Push(g, x, y, cell), x, y), cell.circId) == On(Link(g, x, y), cell.circId) + [cell]
    ensures Link(Push(g, x, y, cell), y, x) == Link(g, y, x)
  {
    hide On;
    OnSnoc(Link(g, x, y), cell, cell.circId);
  }

  lemma PopLink(g: Mesh, x: PeerId, y: PeerId)
    requires x != y && Link(g, x, y) != []
    ensures var circ := Link(g, x, y)[0].circId;
            && On(Link(g, x, y), circ) != [] && On(Link(g, x, y), circ)[0] == Link(g, x, y)[0]
            && On(Link(Pop(g, x, y), x, y), circ) == On(Link(g, x, y), circ)[1..]
    ensures Link(Pop(g, x, y), y, x) == Link(g, y, x)
  {
    hide On;
    OnTail(Link(g, x, y), Link(g, x, y)[0].circId);
  }

  lemma ShownLinks(g: Mesh, v: View, i: nat)
    requires Shows(g, v) && i < |v.path|
    ensures Formed(v) && LinksAt(g, v, i) && v.path != [] && (v.created.Some? ==> v.relays != [])
    ensures |v.relays| <= |v.path| <= |v.relays| + 1 && |v.down| == |v.up| == |v.relays|
  {
  }

  lemma PushDown(g: Mesh, v: View, i: nat, cell: Cell)
    requires Shows(g, v) && i < |v.relays| <= |v.path| && |v.down| == |v.relays|
    requires IsRelay(cell) && cell.circId == v.path[i].circ
    ensures Shows(Push(g, Before(v, i), v.path[i].peer, cell), v.(down := v.down[i := v.down[i] + [cell.payload]]))
  {
    hide Formed, On, Shows, Push, Pop;
    var v' := v.(down := v.down[i := v.down[i] + [cell.payload]]);
    ShownLinks(g, v, i);
    FormedLinks(v, v');
    Ends(v, i);
    PushLink(g, Before(v, i), v.path[i].peer, cell);
    PushOwn(g, v, v', i, Before(v, i), v.path[i].peer, cell);
  }

  lemma PopDown(g: Mesh, v: View, i: nat)
    requires Shows(g, v) && i < |v.relays| <= |v.path| && Link(g, Before(v, i), v.path[i].peer) != []
    requires Link(g, Before(v, i), v.path[i].peer)[0].circId == v.path[i].circ
    ensures var cell := Link(g, Before(v, i), v.path[i].peer)[0];
            && |v.down| == |v.relays| && v.down[i] != [] && IsRelay(cell) && cell.payload == v.down[i][0]
            && Shows(Pop(g, Before(v, i), v.path[i].peer), v.(down := v.down[i := v.down[i][1..]]))
  {
    hide Formed, On, Shows, Push, Pop;
    ShownLinks(g, v, i);
    Ends(v, i);
    PopLink(g, Before(v, i), v.path[i].peer);
    var v' := v.(down := v.down[i := v.down[i][1..]]);
    FormedLinks(v, v');
    PopOwn(g, v, v', i, Before(v, i), v.path[i].peer);
  }

  lemma PushUp(g: Mesh, v: View, i: nat, cell: Cell)
    requires Shows(g, v) && i < |v.relays| <= |v.path| && |v.up| == |v.relays|
    requires IsRelay(cell) && cell.circId == v.path[i].circ
    ensures Shows(Push(g, v.path[i].peer, Before(v, i), cell), v.(up := v.up[i := v.up[i] + [cell.payload]]))
  {
    hide Formed, On, Shows, Push, Pop;
    var v' := v.(up := v.up[i := v.up[i] + [cell.payload]]);
    ShownLinks(g, v, i);
    FormedLinks(v, v');
    Ends(v, i);
    PushLink(g, v.path[i].peer, Before(v, i), cell);
    PushOwn(g, v, v', i, v.path[i].peer, Before(v, i), cell);
  }

  lemma PopUp(g: Mesh, v: View, i: nat)
    requires Shows(g, v) && i < |v.path| && Link(g, v.path[i].peer, Before(v, i)) != []
    requires Link(g, v.path[i].peer, Before(v, i))[0].circId == v.path[i].circ
    requires !Link(g, v.path[i].peer, Before(v, i))[0].command.Created?
    ensures var cell := Link(g, v.path[i].peer, Before(v, i))[0];
            && i < |v.relays| == |v.up| && v.up[i] != [] && IsRelay(cell) && cell.payload == v.up[i][0]
            && Shows(Pop(g, v.path[i].peer, Before(v, i)), v.(up := v.up[i := v.up[i][1..]]))
  {
    hide Formed, On, Shows, Push, Pop;
    ShownLinks(g, v, i);
    Ends(v, i);
    PopLink(g, v.path[i].peer, Before(v, i));
    var v' := v.(up := v.up[i := v.up[i][1..]]);
    FormedLinks(v, v');
    PopOwn(g, v, v', i, v.path[i].peer, Before(v, i));
  }

  /** The CREATE reaches the node at the end of the path. */
  lemma PopCreate(g: Mesh, v: View, i: nat)
    requires Shows(g, v) && i == |v.relays| < |v.path| && Link(g, Before(v, i), v.path[i].peer) != []
    requires Link(g, Before(v, i), v.path[i].peer)[0].circId == v.path[i].circ
    ensures var cell := Link(g, Before(v, i), v.path[i].peer)[0];
            && v.create.Some? && IsCreate(cell, v.create.value)
            && Shows(Pop(g, Before(v, i), v.path[i].peer), v.(create := None))
  {
    hide Formed, On, Shows, Push, Pop;
    ShownLinks(g, v, i);
    Ends(v, i);
    PopLink(g, Before(v, i), v.path[i].peer);
    var v' := v.(create := None);
    FormedLinks(v, v');
    PopOwn(g, v, v', i, Before(v, i), v.path[i].peer);
  }

  /** The CREATED reaches the node before the last. */
  lemma PopCreated(g: Mesh, v: View, i: nat)
    requires Shows(g, v) && i < |v.path| && Link(g, v.path[i].peer, Before(v, i)) != []
    requires Link(g, v.path[i].peer, Before(v, i))[0].circId == v.path[i].circ
    requires Link(g, v.path[i].peer, Before(v, i))[0].command.Created?
    ensures var cell := Link(g, v.path[i].peer, Before(v, i))[0];
            && i + 1 == |v.relays| && v.created.Some? && IsCreated(cell, v.created.value)
            && Shows(Pop(g, v.path[i].peer, Before(v, i)), v.(created := None))
  {
    hide Formed, On, Shows, Push, Pop;
    ShownLinks(g, v, i);
    Ends(v, i);
    PopLink(g, v.path[i].peer, Before(v, i));
    var v' := v.(created := None);
    FormedLinks(v, v');
    PopOwn(g, v, v', i, v.path[i].peer, Before(v, i));
  }

  /** A new relay circuit answers. */
  lemma PushCreated(g: Mesh, v: View, i: nat, cell: Cell, reply: ServerMsg)
    requires Shows(g, v) && i + 1 == |v.relays| == |v.up| <= |v.path| && v.created.None? && v.up[i] == []
    requires IsCreated(cell, reply) && cell.circId == v.path[i].circ
    ensures Shows(Push(g, v.path[i].peer, Before(v, i), cell), v.(created := Some(reply)))
  {
    hide Formed, On, Shows, Push, Pop;
    var v' := v.(created := Some(reply));
    ShownLinks(g, v, i);
    FormedLinks(v, v');
    Ends(v, i);
    PushLink(g, v.path[i].peer, Before(v, i), cell);
    PushOwn(g, v, v', i, v.path[i].peer, Before(v, i), cell);
  }
}

/** What every circuit of a network gets, whatever other circuits share its nodes and connections: the results
    of `CircuitRun` and `CircuitProgress`, about entries of the managers and cells on the connections. */
module NetworkCircuits {
  import opened Wrappers
  import opened Bytes
  import opened Circuit
  import opened Ntor
  import opened CircuitState
  import opened CircuitRun
  import opened ManagerTables
  import opened Network
  import opened NetworkView
  import opened NetworkFrame
  import opened NetworkElsewhere
  import opened NetworkOwn
  import opened NetworkGrow
  import opened NetworkTables
  import opened NetworkRun
  import P = CircuitProgress
  import R = CircuitRun
  import F = ForwardPipe
  import B = BackwardPipe

  // ── Networks ────────────────────────────────────────────────────────

  /** Careful nodes take the network from `g` to `g'`. */
  ghost predicate Reaches(w: World, g: Mesh, events: seq<Event>, g': Mesh)
    decreases events
  {
    if events == [] then g' == g
    else Cautious(w, g, events[0]) && Reaches(w, Do(w, g, events[0]), events[1..], g')
  }

  lemma {:induction false} ReachesSane(w: World, g: Mesh, events: seq<Event>, g': Mesh)
    requires AllSane(g) && Reaches(w, g, events, g')
    ensures AllSane(g')
    decreases events
  {
    hide AllSane, Cautious, Do;
    if events != [] {
      EventSane(w, g, events[0]);
      ReachesSane(w, Do(w, g, events[0]), events[1..], g');
    }
  }

  /** A network that began empty, and in which, whatever came before, node `p` started a circuit that was then
      followed for a while. */
  ghost predicate Followed(
    w: World, before: seq<Event>, g: Mesh, p: PeerId, guard: PeerId, xPriv: Key32, now: Instant, events: seq<Event>,
    g': Mesh, n': R.Net)
  {
    && Reaches(w, EMPTY, before, g) && Cautious(w, g, Start(p, guard, xPriv, now))
    && Follows(w, DoStart(w, g, p, guard, xPriv, now), R.Begin(w, At(g, p).nextOriginId, p, guard, xPriv, now), events, g', n')
  }

  lemma FollowedShows(
    w: World, before: seq<Event>, g: Mesh, p: PeerId, guard: PeerId, xPriv: Key32, now: Instant, events: seq<Event>,
    g': Mesh, n': R.Net)
    requires DhLaw(w.d) && Followed(w, before, g, p, guard, xPriv, now, events, g', n')
    ensures Shows(g', ViewOf(n')) && AllSane(g') && Good(w, n')
    ensures var n := R.Begin(w, At(g, p).nextOriginId, p, guard, xPriv, now);
            R.Run(w, n, StepsOf(w, DoStart(w, g, p, guard, xPriv, now), n, events), n')
  {
    hide Shows, AllSane, Good, Cautious, DoStart, R.Begin, Follows, R.Run;
    var g1, n := DoStart(w, g, p, guard, xPriv, now), R.Begin(w, At(g, p).nextOriginId, p, guard, xPriv, now);
    EmptySane();
    ReachesSane(w, EMPTY, before, g);
    StartShows(w, g, p, guard, xPriv, now);
    EventSane(w, g, Start(p, guard, xPriv, now));
    BeginGood(w, At(g, p).nextOriginId, p, guard, xPriv, now);
    NetworkRefines(w, g1, n, events, g', n');
  }

  // ── Built through the managers ──────────────────────────────────────

  /** Where the circuit is: its client's entry, each relay's under the leg it came in on, and each onward leg
      leading back to the relay it belongs to. */
  ghost predicate InTables(g: Mesh, n: R.Net) {
    && Holds(At(g, n.home).origins, n.client.id, n.client)
    && |n.relays| <= |n.path|
    && (forall i :: 0 <= i < |n.relays| ==> Holds(At(g, n.path[i].peer).relays, From(n, i), n.relays[i]))
    && (forall i :: 0 < i < |n.path| ==> Holds(At(g, n.path[i - 1].peer).relayByNext, n.path[i], From(n, i - 1)))
  }

  lemma ShownInTables(g: Mesh, n: R.Net)
    requires Shows(g, ViewOf(n)) && AllSane(g)
    ensures InTables(g, n)
  {
    hide Shows, AllSane, At, From;
    var v := ViewOf(n);
    RoutesHome(g, v);
    ShownLinks(g, v, 0);
    forall i | 0 <= i < |n.relays|
      ensures Holds(At(g, n.path[i].peer).relays, From(n, i), n.relays[i])
    {
      RelayInTables(g, n, i);
    }
    forall i | 0 < i < |n.path|
      ensures Holds(At(g, n.path[i - 1].peer).relayByNext, n.path[i], From(n, i - 1))
    {
      NextInTables(g, n, i);
    }
  }

  lemma RelayInTables(g: Mesh, n: R.Net, i: nat)
    requires Shows(g, ViewOf(n)) && i < |n.relays|
    ensures i < |n.path| && Holds(At(g, n.path[i].peer).relays, From(n, i), n.relays[i])
  {
    hide Shows, At;
    RoutesDown(g, ViewOf(n), i);
    FromIsBack(n, i);
  }

  lemma NextInTables(g: Mesh, n: R.Net, i: nat)
    requires Shows(g, ViewOf(n)) && AllSane(g) && 0 < i < |n.path|
    ensures Holds(At(g, n.path[i - 1].peer).relayByNext, n.path[i], From(n, i - 1))
  {
    hide Shows, AllSane, At;
    RoutesUp(g, ViewOf(n), i);
    FromIsBack(n, i - 1);
  }

  /** Construction in the network. Start from nothing, let careful nodes do whatever they like, and let one of
      them start a circuit; then whatever goes on around it on the same nodes and connections, the circuit is
      found in the managers of just the nodes its client asked for, and client hop `i` and the entry at node
      `i` agree as `LockstepAt` says. */
  lemma NetworkConstruction(
    w: World, before: seq<Event>, g: Mesh, p: PeerId, guard: PeerId, xPriv: Key32, now: Instant, events: seq<Event>,
    g': Mesh, n': R.Net)
    requires DhLaw(w.d) && Followed(w, before, g, p, guard, xPriv, now, events, g', n')
    ensures InTables(g', n') && n'.home == p && n'.client.id == At(g, p).nextOriginId
    ensures F.Shape(Fwd(n')) && B.Shape(Bwd(n')) && |n'.client.hops| <= |n'.relays|
    ensures |n'.told| == |n'.heard| == |n'.toldUp| == |n'.heardUp| == |n'.relays|
    ensures forall i :: 0 <= i < |n'.client.hops| ==> LockstepAt(n', i)
    ensures |n'.path| <= |n'.asked| && forall i :: 0 <= i < |n'.path| ==> n'.path[i].peer == n'.asked[i]
    ensures |n'.client.hops| + (if n'.client.pending.Some? then 1 else 0) <= 1 + n'.client.relayEarlyUsed <= 1 + MAX_RELAY_EARLY
  {
    FollowedShows(w, before, g, p, guard, xPriv, now, events, g', n');
    hide Shows, AllSane, Good, DoStart, R.Run, LockstepAt, InTables, Followed;
    ShownInTables(g', n');
    var n := R.Begin(w, At(g, p).nextOriginId, p, guard, xPriv, now);
    var steps := StepsOf(w, DoStart(w, g, p, guard, xPriv, now), n, events);
    Construction(w, At(g, p).nextOriginId, p, guard, xPriv, now, steps, n');
    RunKeepsName(w, n, steps, n');
  }

  lemma NextKeepsName(w: World, n: R.Net, step: R.Step)
    requires F.Shape(Fwd(n)) && B.Shape(Bwd(n)) && Enabled(w, n, step)
    ensures Next(w, n, step).home == n.home && Next(w, n, step).client.id == n.client.id
  {
    hide F.Shape, B.Shape, OriginCreated, OriginExtend, EncryptOutbound, RelayExtended, RelayPeel, ExtendOnward, StampDigest,
         OnionBackward, RelayBackward, OriginRelay, DecryptInbound, RelayCreated, F.RelayStep, B.RelayWrap, B.Receive, B.EmitOwn, F.SendTo;
    match step
    case CreatedArrives => OriginKeeps(w, n.client, n.created.value);
    case ClientExtends(next, xPriv, now) => ExtendKeepsOrigin(w, n.client, SpecOf(w, next), xPriv, now);
    case ClientSends(target, rc, now) => EncryptKeeps(w.s, n.client, target, rc, now);
    case ClientReceives(now) => OriginRelayKeeps(w, n.client, n.up[0][0], now);
    case _ =>
  }

  lemma {:induction false} RunKeepsName(w: World, n: R.Net, steps: seq<R.Step>, n': R.Net)
    requires R.Run(w, n, steps, n')
    ensures n'.home == n.home && n'.client.id == n.client.id
    decreases steps
  {
    hide F.Shape, B.Shape, Next, Enabled, NoMistake;
    if steps != [] {
      NextKeepsName(w, n, steps[0]);
      RunKeepsName(w, Next(w, n, steps[0]), steps[1..], n');
    }
  }

  // ── And always completed ────────────────────────────────────────────

  /** No cell of the circuit is on any of its connections. */
  ghost predicate NoneInFlight(g: Mesh, n: R.Net) {
    forall i :: 0 <= i < |n.path| ==>
      var x, y, circ := Before(ViewOf(n), i), n.path[i].peer, n.path[i].circ;
      NoCells(Link(g, x, y), circ) && NoCells(Link(g, y, x), circ)
  }

  lemma NoneAt(g: Mesh, n: R.Net, i: nat)
    requires Shows(g, ViewOf(n)) && i < |n.path|
    ensures |n.down| == |n.up| == |n.relays|
    ensures var x, y, circ := Before(ViewOf(n), i), n.path[i].peer, n.path[i].circ;
            && (NoCells(Link(g, x, y), circ) <==> if i < |n.relays| then n.down[i] == [] else n.create.None?)
            && (NoCells(Link(g, y, x), circ) <==>
                  i < |n.relays| ==> n.up[i] == [] && !(i + 1 == |n.relays| && n.created.Some?))
  {
    var v := ViewOf(n);
    hide Shows, On;
    ShownLinks(g, v, i);
    OnNone(Link(g, Before(v, i), n.path[i].peer), n.path[i].circ);
    OnNone(Link(g, n.path[i].peer, Before(v, i)), n.path[i].circ);
    assert LinksAt(g, v, i);
  }

  lemma NoneMeansQuiet(g: Mesh, n: R.Net)
    requires Shows(g, ViewOf(n)) && NoneInFlight(g, n)
    ensures P.Quiet(n)
  {
    FormedCreated(ViewOf(n));
    FormedSizes(ViewOf(n));
    assert n.create.Some? ==> |n.path| == |n.relays| + 1;
    hide Shows, Formed;
    forall i | 0 <= i < |n.relays|
      ensures n.down[i] == [] && n.up[i] == [] && !(i + 1 == |n.relays| && n.created.Some?)
    {
      assert n.path[i] == n.path[i];
      NoneAt(g, n, i);
    }
    if n.create.Some? {
      assert n.path[|n.relays|] == n.path[|n.relays|];
      NoneAt(g, n, |n.relays|);
    }
    if n.created.Some? {
      var last := |n.relays| - 1;
      assert n.path[last] == n.path[last];
      NoneAt(g, n, last);
    }
  }

  lemma QuietMeansNone(g: Mesh, n: R.Net)
    requires Shows(g, ViewOf(n))
    ensures P.Quiet(n) <==> NoneInFlight(g, n)
  {
    if P.Quiet(n) {
      hide Shows;
      forall i | 0 <= i < |n.path|
        ensures var x, y, circ := Before(ViewOf(n), i), n.path[i].peer, n.path[i].circ;
                NoCells(Link(g, x, y), circ) && NoCells(Link(g, y, x), circ)
      {
        NoneAt(g, n, i);
      }
    }
    if NoneInFlight(g, n) {
      NoneMeansQuiet(g, n);
    }
  }

  lemma {:induction false} DeliveriesDeliver(w: World, g: Mesh, n: R.Net, events: seq<Event>)
    requires forall i :: 0 <= i < |events| ==> events[i].Deliver?
    ensures forall i :: 0 <= i < |StepsOf(w, g, n, events)| ==> P.Delivers(StepsOf(w, g, n, events)[i])
    decreases events
  {
    hide Do, Advance, FindDown;
    if events != [] {
      var rest := StepsOf(w, Do(w, g, events[0]), Advance(w, g, n, events[0]), events[1..]);
      DeliveriesDeliver(w, Do(w, g, events[0]), Advance(w, g, n, events[0]), events[1..]);
      assert StepOf(g, n, events[0]).Some? ==> P.Delivers(StepOf(g, n, events[0]).value);
    }
  }

  /** The circuit has every hop its client asked for, and all its cells have arrived. */
  ghost predicate Complete(g: Mesh, n: R.Net) {
    && InTables(g, n) && n.client.pending.None?
    && |n.client.hops| == |n.relays| == |n.path| == |n.asked|
    && |n.told| == |n.heard| == |n.toldUp| == |n.heardUp| == |n.relays|
    && forall i :: 0 <= i < |n.relays| ==>
         && n.path[i].peer == n.asked[i]
         && At(g, n.path[i].peer).relays[From(n, i)].hop == n.client.hops[i]
         && n.heard[i] == n.told[i] && n.heardUp[i] == n.toldUp[i]
  }

  /** With none of its cells in flight a circuit is complete. */
  lemma NoneMeansComplete(w: World, g: Mesh, n: R.Net)
    requires Shows(g, ViewOf(n)) && AllSane(g) && Good(w, n) && NoneInFlight(g, n)
    ensures Complete(g, n)
  {
    hide Shows, AllSane, Good, P.Quiet, NoneInFlight, AtStage;
    QuietMeansNone(g, n);
    ShownInTables(g, n);
    P.QuietIsIdle(w, n);
    IdlePath(w, n);
    P.GoodSize(w, n);
    PathIsAsked(w, n);
    forall i | 0 <= i < |n.relays|
      ensures n.client.hops[i] == n.relays[i].hop && n.heard[i] == n.told[i] && n.heardUp[i] == n.toldUp[i]
    {
      P.QuietIsHeard(w, n, i);
    }
  }

  lemma IdlePath(w: World, n: R.Net)
    requires AtStage(w, n, Idle)
    ensures n.client.pending.None? && |n.client.hops| == |n.relays| == |n.path| && n.asked == Peers(n.path)
  {
  }

  /** Completion in the network. Once cells are only delivered, those of any circuit are delivered at most
      `Work` times, whatever is delivered in between, and no hop of its path is lost; and as soon as none of
      its cells is left on its connections it is complete. */
  lemma NetworkCompletion(
    w: World, before: seq<Event>, g: Mesh, p: PeerId, guard: PeerId, xPriv: Key32, now: Instant, events: seq<Event>,
    g': Mesh, n': R.Net, deliveries: seq<Event>, g'': Mesh, n'': R.Net)
    requires DhLaw(w.d) && Followed(w, before, g, p, guard, xPriv, now, events, g', n')
    requires Follows(w, g', n', deliveries, g'', n'') && forall i :: 0 <= i < |deliveries| ==> deliveries[i].Deliver?
    ensures |StepsOf(w, g', n', deliveries)| + P.Work(n'') <= P.Work(n') && P.Path(n''.client) == P.Path(n'.client)
    ensures NoneInFlight(g'', n'') ==> Complete(g'', n'')
  {
    hide Shows, AllSane, Good, R.Run, Follows, StepsOf, NoneInFlight, Complete, Followed, P.Work, P.Path;
    FollowedShows(w, before, g, p, guard, xPriv, now, events, g', n');
    NetworkRefines(w, g', n', deliveries, g'', n'');
    DeliveriesDeliver(w, g', n', deliveries);
    P.DeliveryEnds(w, n', StepsOf(w, g', n', deliveries), n'');
    if NoneInFlight(g'', n'') {
      NoneMeansComplete(w, g'', n'');
    }
  }
}

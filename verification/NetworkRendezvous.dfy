/** The order in which the code joins two circuits, kept in a network. */
module NetworkRendezvous {
  import opened Wrappers
  import opened Bytes
  import opened Circuit
  import opened Ntor
  import opened CircuitState
  import opened CircuitRun
  import opened ManagerTables
  import opened Network
  import opened NetworkView
  import opened NetworkTables
  import opened NetworkRun
  import opened NetworkSplice
  import R = CircuitRun
  import S = Splice
  import O = RendezvousOrder

  /** Whatever else happens in the network, of these two circuits the nodes go on in the code's order. */
  ghost predicate OrderlyEvents(w: World, g: Mesh, rs: seq<Route>, j: S.Joined, events: seq<Event>)
    requires |rs| == 2
    decreases events
  {
    events != [] && |j.lines| == 2 ==>
      var step := PairStep(w, g, rs, j, events[0]);
      && (step.Some? && S.Enabled(j, step.value) ==> O.Orderly(j, step.value))
      && OrderlyEvents(w, Do(w, g, events[0]), rs, AdvancePair(w, g, rs, j, events[0]), events[1..])
  }

  /** The service's manager is given a cell of the far end before it has a layer for it. */
  predicate InstalledLate(w: World, g: Mesh, r: Route, events: seq<Event>)
    decreases events
  {
    events != [] && (MissedAtEnd(w, g, r, events[0]) || InstalledLate(w, Do(w, g, events[0]), r, events[1..]))
  }

  lemma OrderedEvent(w: World, g: Mesh, rs: seq<Route>, j: S.Joined, event: Event)
    requires Pair(g, rs, j) && AllSane(g) && S.Good(w.s, j) && Cautious(w, g, event) && O.Ordered(j)
    requires |rs| == 2 == |j.lines| && HonestPair(w, g, rs, j, event)
    requires var step := PairStep(w, g, rs, j, event); step.Some? && S.Enabled(j, step.value) ==> O.Orderly(j, step.value)
    ensures var j' := AdvancePair(w, g, rs, j, event);
            && Pair(Do(w, g, event), rs, j') && AllSane(Do(w, g, event)) && S.Good(w.s, j') && |j'.lines| == 2
            && O.Ordered(j') && |j.lost| == |j'.lost| == 2
            && (j'.lost[0] <==> j.lost[0] || MissedAtEnd(w, g, rs[1], event))
  {
    hide Pair, AllSane, Cautious, S.Good, S.Whole, PairStep, Do, S.Next, O.Ordered, HonestPair, MissedAtEnd, DroppedAtNode,
         O.Orderly, S.Loses, S.Enabled, S.NoMistake;
    GoodWhole(w.s, j);
    PairSound(g, rs, j);
    PairAdvances(w, g, rs, j, event);
    PairSound(Do(w, g, event), rs, AdvancePair(w, g, rs, j, event));
    LosesInIs(w, g, rs, j, event, 0);
    var step := PairStep(w, g, rs, j, event);
    if step.Some? {
      O.OrderedStep(w.s, j, step.value);
      S.LosesExactly(w.s, j, step.value, 0);
      if S.Loses(w.s, j, step.value, 0) {
        MissedNotDropped(w, g, rs, j, event, step.value);
      }
    }
  }

  /** A loss at the far end is no loss at the bridge. */
  lemma MissedNotDropped(w: World, g: Mesh, rs: seq<Route>, j: S.Joined, event: Event, step: S.Step)
    requires Pair(g, rs, j) && AllSane(g) && |rs| == 2 == |j.lines| && S.Whole(j.lines[0]) && S.Whole(j.lines[1])
    requires PairStep(w, g, rs, j, event) == Some(step) && step.EndReceives? && LosesIn(w, g, rs, event, 0)
    ensures MissedAtEnd(w, g, rs[1], event)
  {
    hide Shows, AllSane, S.Whole, S.LineTakes, Bound, FindDown, MissedAtEnd, Ready, Pair;
    PairBound(g, rs, j, 0);
    BoundShows(g, Of(rs, j, 0), Of(rs, j, 1));
    if event.Deliver? {
      DroppedIs(w, g, j.lines[0], rs[0], PartnerOf(j.bridged, rs[1]), 0, event);
    }
  }

  lemma {:induction false} OrderedEvents(
    w: World, g: Mesh, rs: seq<Route>, j: S.Joined, events: seq<Event>, g': Mesh, j': S.Joined)
    requires |rs| == 2 && Pair(g, rs, j) && AllSane(g) && S.Good(w.s, j) && FollowsPair(w, g, rs, j, events, g', j')
    requires O.Ordered(j) && OrderlyEvents(w, g, rs, j, events)
    ensures O.Ordered(j') && |j.lost| == |j'.lost| == 2
    ensures j'.lost[0] <==> j.lost[0] || InstalledLate(w, g, rs[1], events)
    decreases events
  {
    hide Pair, AllSane, Cautious, S.Good, PairStep, Do, O.Ordered, HonestPair, MissedAtEnd, O.Orderly, S.Enabled, AdvancePair;
    PairSound(g, rs, j);
    if events != [] {
      OrderedEvent(w, g, rs, j, events[0]);
      OrderedEvents(w, Do(w, g, events[0]), rs, AdvancePair(w, g, rs, j, events[0]), events[1..], g', j');
    }
  }

  /** Two circuits of a network, joined in the code's order while anything else goes on: nothing the service says
      is lost, and what the client says is lost exactly if the service is given its first cell before it has
      installed its layer. */
  lemma NetworkInCodeOrder(
    w: World, g: Mesh, c: R.Net, h: R.Net, bSecret: Key32, xPriv: Key32, yPriv: Key32, clientKeys: E2EKeys, hsKeys: E2EKeys,
    events: seq<Event>, g': Mesh, j': S.Joined)
    requires DhLaw(w.d) && Grown(w, g, c) && Grown(w, g, h) && Meet(c, h) && O.NotYetMet(c)
    requires S.Handshaken(w.d, w.l, bSecret, xPriv, yPriv, clientKeys, hsKeys)
    requires FollowsPair(w, g, RoutesOf(c, h), S.Apart(c, h, S.LayersOf(clientKeys, hsKeys)), events, g', j')
    requires OrderlyEvents(w, g, RoutesOf(c, h), S.Apart(c, h, S.LayersOf(clientKeys, hsKeys)), events)
    ensures S.Delivered(j') && |j'.lost| == 2 && !j'.lost[1]
    ensures j'.lost[0] <==> InstalledLate(w, g, RoutesOf(c, h)[1], events)
  {
    hide Shows, AllSane, S.Built, Good, Grown, FollowsPair, Pair, S.Handshaken, S.Delivered, S.Good, S.LayersOf, S.Agreed, RoutesOf,
         ViewOf, Meet, O.NotYetMet, OrderlyEvents, InstalledLate;
    GrownShows(w, g, c);
    GrownShows(w, g, h);
    BothBuilt(w, c, h);
    S.HandshakenAgreed(w.d, w.l, bSecret, xPriv, yPriv, clientKeys, hsKeys);
    var layers := S.LayersOf(clientKeys, hsKeys);
    StartsPair(w, g, c, h, layers);
    O.StartsOrdered(w, c, w, h, layers);
    NetworkSplicedDelivery(w, g, c, h, bSecret, xPriv, yPriv, clientKeys, hsKeys, events, g', j');
    OrderedEvents(w, g, RoutesOf(c, h), S.Apart(c, h, layers), events, g', j');
    OrderedKeeps(j');
  }

  lemma BothBuilt(w: World, c: R.Net, h: R.Net)
    requires Good(w, c) && Good(w, h) && Meet(c, h)
    ensures S.Built(w, c) && S.Built(w, h)
  {
    hide Good, S.Built;
    RestIsBuilt(w, c);
    RestIsBuilt(w, h);
  }

  lemma OrderedKeeps(j: S.Joined)
    requires O.Ordered(j)
    ensures |j.lost| == 2 && !j.lost[1]
  {
    hide O.Led, O.Has, O.Over;
  }
}

/** A circuit being built never gets stuck: delivering what is in flight comes to an end, and when it has,
    the extension that was under way is complete. */
module CircuitProgress {
  import opened Wrappers
  import opened Bytes
  import opened Circuit
  import opened Ntor
  import opened ExtendCodec
  import opened Flow
  import opened CircuitState
  import opened CircuitRun
  import R = CircuitRun
  import F = ForwardPipe
  import B = BackwardPipe

  // ── Nothing in flight ───────────────────────────────────────────────

  /** Nothing is on these links. */
  predicate Empty(links: seq<seq<Payload>>) {
    forall i :: 0 <= i < |links| ==> links[i] == []
  }

  lemma {:induction false} WireEmpty(book: seq<seq<Flight>>, i: nat)
    requires i < |book| && forall k :: 0 <= k < |book| ==> book[k] == []
    ensures F.Wire(book, i) == [] && B.Front([], book, i) == []
  {
    if i > 0 {
      WireEmpty(book, i - 1);
    }
  }

  predicate Quiet(n: Net) {
    n.create.None? && n.created.None? && Empty(n.down) && Empty(n.up)
  }

  /** The steps that deliver what is under way and start nothing new. */
  predicate Delivers(step: Step) {
    step.NodeCreates? || step.CreatedArrives? || step.RelayTakes? || step.RelayPassesBack? || step.ClientReceives?
  }

  lemma QuietBooks(w: World, n: Net)
    requires Steady(w, n) && Quiet(n)
    ensures forall i :: 0 <= i < |n.log.fbook| ==> n.log.fbook[i] == []
    ensures forall i :: 0 <= i < |n.log.bbook| ==> n.log.bbook[i] == []
  {
    hide F.CellInv, F.HopInv, B.CellInv, B.CountInv, B.DigestInv, TalkAt;
    forall i | 0 <= i < |n.log.fbook|
      ensures n.log.fbook[i] == []
    {
      assert |Fwd(n).wires[i]| == |Fwd(n).book[i]|;
    }
    forall i | 0 <= i < |n.log.bbook|
      ensures n.log.bbook[i] == []
    {
      assert |Bwd(n).wires[i]| == |Bwd(n).book[i]|;
    }
  }

  lemma QuietViews(w: World, n: Net)
    requires Steady(w, n) && Quiet(n)
    ensures ExtendsInFlight(n) == [] && ExtendedsInFlight(n) == []
  {
    hide Steady;
    QuietBooks(w, n);
    if n.log.fbook != [] {
      WireEmpty(n.log.fbook, |n.log.fbook| - 1);
    }
    if n.log.bbook != [] {
      WireEmpty(n.log.bbook, |n.log.bbook| - 1);
    }
  }

  /** When nothing is in flight no handshake is pending: none is ever lost or stuck. */
  lemma QuietIsIdle(w: World, n: Net)
    requires Good(w, n) && Quiet(n)
    ensures AtStage(w, n, Idle)
  {
    hide Steady, Answer, Genuine, ExtendsInFlight, ExtendedsInFlight, Word, Empty;
    QuietViews(w, n);
    var stage :| AtStage(w, n, stage);
  }

  /** Nor is any cell. */
  lemma QuietIsHeard(w: World, n: Net, i: nat)
    requires Good(w, n) && Quiet(n) && i < |n.client.hops|
    ensures F.Shape(Fwd(n)) && B.Shape(Bwd(n))
    ensures |n.told| == |n.heard| == |n.toldUp| == |n.heardUp| == |n.relays|
    ensures n.heard[i] == n.told[i] && n.heardUp[i] == n.toldUp[i]
    ensures n.client.hops[i] == n.relays[i].hop
  {
    hide Word, F.CellInv, F.HopInv, B.CellInv, B.CountInv, B.DigestInv, TalkAt, AtStage;
    GoodLockstep(w, n, i);
    QuietBooks(w, n);
    assert |n.log.fbook| == |n.relays| == |n.log.bbook|;
    WireEmpty(n.log.fbook, i);
    assert B.Front([], n.log.bbook, i + 1) == [] by {
      WireEmpty(n.log.bbook, i);
    }
    assert F.InFlight(Fwd(n), i) == [];
    assert Hist([]) == [];
  }

  // ── Delivery can go on ──────────────────────────────────────────────

  lemma CreateIsHonest(w: World, n: Net)
    requires Good(w, n) && n.create.Some?
    ensures |n.relays| < |n.path|
  {
    hide Steady, Answer, Genuine, ExtendsInFlight, ExtendedsInFlight, Word;
    var stage :| AtStage(w, n, stage);
  }

  /** As long as anything is in flight somebody can deliver it. */
  lemma CanDeliver(w: World, n: Net, yPriv: Key32, nextCirc: CircuitId, now: Instant) returns (step: Step)
    requires Good(w, n) && !Quiet(n)
    ensures Enabled(w, n, step) && Delivers(step)
  {
    hide Good;
    if n.create.Some? {
      CreateIsHonest(w, n);
      return NodeCreates(yPriv, now);
    }
    if n.created.Some? {
      return CreatedArrives;
    }
    if !Empty(n.down) {
      var j: nat :| j < |n.down| && n.down[j] != [];
      return RelayTakes(j, nextCirc, now);
    }
    var i: nat :| i < |n.up| && n.up[i] != [];
    return if i == 0 then ClientReceives(now) else RelayPassesBack(i - 1);
  }

  // ── Delivery ends ───────────────────────────────────────────────────

  function Weigh(links: seq<seq<Payload>>, weight: nat -> nat): nat
    decreases |links|
  {
    if links == [] then 0
    else Weigh(links[..|links| - 1], weight) + |links[|links| - 1]| * weight(|links| - 1)
  }

  lemma {:induction false} WeighUpdate(links: seq<seq<Payload>>, weight: nat -> nat, i: nat, link: seq<Payload>)
    requires i < |links|
    ensures Weigh(links[i := link], weight) == Weigh(links, weight) - |links[i]| * weight(i) + |link| * weight(i)
    decreases |links|
  {
    var last := |links| - 1;
    if i < last {
      WeighUpdate(links[..last], weight, i, link);
      assert links[i := link][..last] == links[..last][i := link];
    } else {
      assert links[i := link][..last] == links[..last];
    }
  }

  /** A cell taken off a link. */
  lemma WeighTake(links: seq<seq<Payload>>, weight: nat -> nat, i: nat)
    requires i < |links| && links[i] != []
    ensures Weigh(links[i := links[i][1..]], weight) == Weigh(links, weight) - weight(i)
  {
    WeighUpdate(links, weight, i, links[i][1..]);
    assert |links[i]| * weight(i) == (|links[i]| - 1) * weight(i) + weight(i);
  }

  /** A cell put on a link. */
  lemma WeighPut(links: seq<seq<Payload>>, weight: nat -> nat, i: nat, p: Payload)
    requires i < |links|
    ensures Weigh(links[i := links[i] + [p]], weight) == Weigh(links, weight) + weight(i)
  {
    WeighUpdate(links, weight, i, links[i] + [p]);
    assert (|links[i]| + 1) * weight(i) == |links[i]| * weight(i) + weight(i);
  }

  lemma WeighGrow(links: seq<seq<Payload>>, weight: nat -> nat)
    ensures Weigh(links + [[]], weight) == Weigh(links, weight)
  {
    assert (links + [[]])[..|links|] == links;
  }

  /** The guard, and what the RELAY_EARLY budget allows. */
  const MAX_PATH: nat := 1 + MAX_RELAY_EARLY

  /** How many steps a cell may still cause, link by link. A cell going down may turn into a CREATE, that
      into a CREATED, and that into an EXTENDED2 going all the way up. */
  function DownCost(): nat -> nat {
    (j: nat) => if j <= MAX_PATH then 2 * MAX_PATH + 3 - j else 0
  }

  function UpCost(): nat -> nat {
    (i: nat) => i + 1
  }

  function Work(n: Net): nat {
    Weigh(n.down, DownCost()) + Weigh(n.up, UpCost())
    + (if n.create.Some? then MAX_PATH + 2 else 0) + (if n.created.Some? then MAX_PATH + 1 else 0)
  }

  lemma GoodSize(w: World, n: Net)
    requires Good(w, n)
    ensures F.Shape(Fwd(n)) && B.Shape(Bwd(n)) && |n.down| == |n.up| == |n.relays| <= MAX_PATH
    ensures |n.told| == |n.heard| == |n.toldUp| == |n.heardUp| == |n.relays|
  {
    hide ExtendsInFlight, ExtendedsInFlight, Answer, Genuine, Word, F.CellInv, F.HopInv, B.CellInv, B.CountInv, B.DigestInv,
         TalkAt, AllAddressed;
    var stage :| AtStage(w, n, stage);
  }

  lemma TakingWorks(w: World, n: Net, j: nat, nextCirc: CircuitId, now: Instant)
    requires F.Shape(Fwd(n)) && |n.down| == |n.up| == |n.relays| <= MAX_PATH && j < |n.down| && n.down[j] != []
    ensures Work(TakeAtRelay(w, n, j, nextCirc, now)) < Work(n)
    ensures TakeAtRelay(w, n, j, nextCirc, now).client == n.client
  {
    hide RelayPeel, ExtendOnward, F.RelayStep, Weigh;
    var q := RelayPeel(w.s, n.relays[j], n.down[j][0], now).1;
    var cost := DownCost();
    var down1 := n.down[j := n.down[j][1..]];
    WeighTake(n.down, cost, j);
    if j + 1 < |n.down| {
      WeighPut(down1, cost, j + 1, q);
    }
  }

  lemma PassingWorks(w: World, n: Net, j: nat)
    requires B.Shape(Bwd(n)) && j + 1 < |n.up| && n.up[j + 1] != []
    ensures Work(PassBack(w, n, j)) < Work(n)
  {
    hide RelayBackward, B.RelayWrap, Weigh;
    var q := RelayBackward(w.s, n.relays[j], n.up[j + 1][0]).1;
    WeighTake(n.up, UpCost(), j + 1);
    WeighPut(n.up[j + 1 := n.up[j + 1][1..]], UpCost(), j, q);
  }

  lemma ReceivingWorks(w: World, n: Net, now: Instant)
    requires B.Shape(Bwd(n)) && 0 < |n.up| && n.up[0] != []
    ensures Work(ReceiveAtClient(w, n, now)) < Work(n)
  {
    hide OriginRelay, DecryptInbound, B.Receive, Weigh;
    WeighTake(n.up, UpCost(), 0);
  }

  lemma CreatingWorks(w: World, n: Net, yPriv: Key32, now: Instant)
    requires n.create.Some? && |n.relays| < |n.path|
    ensures Work(CreateAtNode(w, n, yPriv, now)) < Work(n)
  {
    hide RelayCreated, F.AddRelay, B.AddRelay, Weigh;
    WeighGrow(n.down, DownCost());
    WeighGrow(n.up, UpCost());
  }

  lemma CreatedWorks(w: World, n: Net)
    requires B.Shape(Bwd(n)) && n.created.Some? && |n.up| <= MAX_PATH
    ensures Work(DeliverCreated(w, n)) < Work(n)
  {
    hide OriginCreated, RelayExtended, B.EmitOwn, Weigh;
    if |n.relays| >= 2 {
      var o := |n.relays| - 2;
      var r := RelayExtended(w.s, n.relays[o], n.created.value);
      if r.Ok? {
        WeighPut(n.up, UpCost(), o, r.value.1.payload);
      }
    }
  }

  /** Every delivery leaves less to be delivered. */
  lemma WorkFalls(w: World, n: Net, step: Step)
    requires Good(w, n) && Enabled(w, n, step) && Delivers(step)
    requires F.Shape(Fwd(n)) && B.Shape(Bwd(n))
    ensures Work(Next(w, n, step)) < Work(n)
  {
    hide Good, Work, CreateAtNode, DeliverCreated, TakeAtRelay, PassBack, ReceiveAtClient;
    GoodSize(w, n);
    match step
    case NodeCreates(yPriv, now) => CreatingWorks(w, n, yPriv, now);
    case CreatedArrives => CreatedWorks(w, n);
    case RelayTakes(j, nextCirc, now) => TakingWorks(w, n, j, nextCirc, now);
    case RelayPassesBack(j) => PassingWorks(w, n, j);
    case ClientReceives(now) => ReceivingWorks(w, n, now);
  }

  // ── And the extension under way is complete ─────────────────────────

  /** The path, with the hop being asked for. */
  function Path(o: Origin): nat {
    |o.hops| + if o.pending.Some? then 1 else 0
  }

  /** A handshake ends in a new hop or in nothing. */
  predicate SpentOrSame(o: Origin, o': Origin) {
    || (o'.pending == o.pending && |o'.hops| == |o.hops|)
    || (o.pending.Some? && o'.pending.None? && |o.hops| <= |o'.hops| <= |o.hops| + 1)
  }

  lemma CreatedSpends(d: Dh, l: Labels, o: Origin, reply: ServerMsg)
    ensures SpentOrSame(o, OriginCreated(d, l, o, reply).0)
  {
    hide ClientHandshakeFinish;
  }

  lemma DecryptKeepsPath(s: Suite, o: Origin, p: Payload, now: Instant)
    ensures var o' := DecryptInbound(s, o, p, now).0;
            |o'.hops| == |o.hops| && o'.pending == o.pending
  {
    hide Peel, RecognizedPayload, FromPayload, Blank, Layer;
    var r := Peel(s, Backwards(o.hops), 0, p);
    assert |Forwards(WithBackwards(o.hops, r.hops))| == |o.hops|;
  }

  lemma ReceiveSpends(w: World, o: Origin, p: Payload, now: Instant)
    ensures SpentOrSame(o, OriginRelay(w.s, w.d, w.l, o, p, now).0)
  {
    hide DecryptInbound, OriginCreated, ParseExtended2;
    DecryptKeepsPath(w.s, o, p, now);
    var (o1, found) := DecryptInbound(w.s, o, p, now);
    if found.Some? && found.value.1.command == Extended2 {
      var r := ParseExtended2(found.value.1.data);
      if r.Ok? && |r.value| == SERVER_HANDSHAKE_LEN {
        CreatedSpends(w.d, w.l, o1, r.value);
      }
    }
  }

  /** If the client could give up on a handshake that is still under way, or that has succeeded at the
      far end, no stage would fit the result. */
  lemma NotGivenUp(w: World, n: Net, n': Net)
    requires Good(w, n) && Good(w, n') && SpentOrSame(n.client, n'.client)
    requires |n'.relays| == |n.relays| && n'.create == n.create && n'.log.fbook == n.log.fbook
    requires n'.created == n.created || (n.created.Some? && |n.relays| <= 1)
    ensures Path(n'.client) == Path(n.client)
  {
    hide Steady, Answer, Genuine, Word, ExtendedsInFlight, Filter;
    var stage :| AtStage(w, n, stage);
    var stage' :| AtStage(w, n', stage');
    assert ExtendsInFlight(n') == ExtendsInFlight(n);
  }

  lemma PathKept(w: World, n: Net, step: Step)
    requires DhLaw(w.d) && F.Shape(Fwd(n)) && B.Shape(Bwd(n))
    requires Good(w, n) && Enabled(w, n, step) && NoMistake(w, n, step) && Delivers(step)
    ensures Path(Next(w, n, step).client) == Path(n.client)
  {
    hide Good, OriginCreated, OriginRelay, RelayCreated, RelayExtended, RelayPeel, ExtendOnward, RelayBackward, DecryptInbound,
         F.NotMistaken, B.NotMistaken, F.RelayStep, B.RelayWrap, B.Receive, B.EmitOwn;
    StepGood(w, n, step);
    match step
    case NodeCreates(_, _) =>
    case RelayTakes(_, _, _) =>
    case RelayPassesBack(_) =>
    case CreatedArrives =>
      if |n.relays| <= 1 {
        CreatedSpends(w.d, w.l, n.client, n.created.value);
        NotGivenUp(w, n, DeliverCreated(w, n));
      }
    case ClientReceives(now) =>
      ReceiveSpends(w, n.client, n.up[0][0], now);
      NotGivenUp(w, n, ReceiveAtClient(w, n, now));
  }

  /** Delivering, in any order, is over after at most `Work` steps, and loses no hop of the path. */
  lemma {:induction false} DeliveryEnds(w: World, n: Net, steps: seq<Step>, n': Net)
    requires DhLaw(w.d) && Good(w, n) && Run(w, n, steps, n')
    requires forall i :: 0 <= i < |steps| ==> Delivers(steps[i])
    ensures |steps| + Work(n') <= Work(n)
    ensures Path(n'.client) == Path(n.client)
    decreases steps
  {
    hide Good, Next, Enabled, NoMistake, Work, Path;
    if steps != [] {
      StepGood(w, n, steps[0]);
      WorkFalls(w, n, steps[0]);
      PathKept(w, n, steps[0]);
      DeliveryEnds(w, Next(w, n, steps[0]), steps[1..], n');
    }
  }

  /** Asking for one more hop makes the path to be completed one longer. */
  lemma ExtendingAsks(w: World, n: Net, next: PeerId, xPriv: Key32, now: Instant)
    requires Good(w, n) && Enabled(w, n, ClientExtends(next, xPriv, now))
    ensures Path(ExtendFromClient(w, n, next, xPriv, now).client) == Path(n.client) + 1
  {
    hide Steady, ExtendCell, F.SendTo, Genuine, ExtendFromClient;
    ClientExtendsFrame(w, n, next, xPriv, now);
  }

  /** Every circuit gets built. Start it, and then use and extend it however honest participants like: from
      any state so reached, delivering what is in flight, in any order, comes to an end, and then the hop
      last asked for, if one was, has been added; every cell has been heard; and each hop of the client is
      the state its relay holds. */
  lemma Completion(
    w: World, id: CircuitId, home: PeerId, guard: PeerId, xPriv: Key32, began: Instant, steps: seq<Step>, n: Net,
    deliveries: seq<Step>, n': Net)
    requires DhLaw(w.d) && Run(w, R.Begin(w, id, home, guard, xPriv, began), steps, n)
    requires Run(w, n, deliveries, n') && forall i :: 0 <= i < |deliveries| ==> Delivers(deliveries[i])
    ensures |deliveries| <= Work(n)
    ensures (exists step :: Enabled(w, n', step) && Delivers(step)) <==> !Quiet(n')
    ensures Quiet(n') ==>
      && n'.client.pending.None? && |n'.client.hops| == |n'.relays| == Path(n.client)
      && |n'.told| == |n'.heard| == |n'.toldUp| == |n'.heardUp| == |n'.relays|
      && forall i :: 0 <= i < |n'.relays| ==>
           n'.client.hops[i] == n'.relays[i].hop && n'.heard[i] == n'.told[i] && n'.heardUp[i] == n'.toldUp[i]
  {
    hide Good, R.Begin, Run, Work, AtStage;
    BeginGood(w, id, home, guard, xPriv, began);
    RunGood(w, R.Begin(w, id, home, guard, xPriv, began), steps, n);
    RunGood(w, n, deliveries, n');
    DeliveryEnds(w, n, deliveries, n');
    if Quiet(n') {
      QuietIsIdle(w, n');
      IdleParts(w, n');
      GoodSize(w, n');
      forall i | 0 <= i < |n'.relays|
        ensures n'.client.hops[i] == n'.relays[i].hop && n'.heard[i] == n'.told[i] && n'.heardUp[i] == n'.toldUp[i]
      {
        QuietIsHeard(w, n', i);
      }
    } else {
      var step := CanDeliver(w, n', Zeros(32), 0, 0);
    }
  }

  lemma IdleParts(w: World, n: Net)
    requires AtStage(w, n, Idle)
    ensures n.client.pending.None? && |n.client.hops| == |n.relays|
  {
  }

  // ── Such runs there are ─────────────────────────────────────────────

  /** One step more at the end of a run. */
  lemma {:induction false} RunSnoc(w: World, n: Net, steps: seq<Step>, n1: Net, step: Step)
    requires Run(w, n, steps, n1) && F.Shape(Fwd(n1)) && B.Shape(Bwd(n1)) && Enabled(w, n1, step) && NoMistake(w, n1, step)
    ensures Run(w, n, steps + [step], Next(w, n1, step))
    decreases steps
  {
    hide Next, Enabled, NoMistake, F.Shape, B.Shape;
    if steps == [] {
      assert [step][1..] == [] && ([] + [step])[0] == step && ([] + [step])[1..] == [];
    } else {
      assert (steps + [step])[1..] == steps[1..] + [step];
      RunSnoc(w, Next(w, n, steps[0]), steps[1..], n1, step);
    }
  }

  lemma GuardCreates(w: World, n: Net, yPriv: Key32, now: Instant)
    requires DhLaw(w.d) && Good(w, n) && n.create.Some? && n.relays == [] && |n.path| == 1 && n.client.hops == []
    requires n.log == Log([], [], [], [], [], [], [])
    ensures var n1 := CreateAtNode(w, n, yPriv, now);
            Good(w, n1) && n1.created.Some? && |n1.relays| == 1 && n1.client == n.client
            && n1.log.fbook == [[]] && n1.log.bbook == [[]] && n1.log.recv == []
  {
    NodeCreatesGood(w, n, yPriv, now);
    hide Good, RelayCreated;
  }

  lemma GuardDelivers(w: World, n: Net)
    requires Good(w, n) && n.created.Some? && |n.relays| == 1 && n.client.relayEarlyUsed == 0
    ensures B.Shape(Bwd(n)) && F.Shape(Fwd(n))
    ensures var n1 := DeliverCreated(w, n);
            Good(w, n1) && |n1.client.hops| == 1 && n1.relays == n.relays && n1.log == n.log && n1.client.pending.None?
            && n1.client.relayEarlyUsed == 0
  {
    CreatedArrivesGood(w, n);
    GoodSize(w, n);
    hide Good, ClientHandshakeFinish;
  }

  /** The guard answers, and the client has its first hop. */
  lemma FirstHop(w: World, id: CircuitId, home: PeerId, guard: PeerId, xPriv: Key32, yPriv: Key32, now: Instant)
    returns (steps: seq<Step>, n: Net)
    requires DhLaw(w.d)
    ensures Run(w, R.Begin(w, id, home, guard, xPriv, now), steps, n) && Good(w, n)
    ensures |n.client.hops| == 1 == |n.relays| && n.client.pending.None? && n.client.relayEarlyUsed == 0
    ensures n.log.fbook == [[]] && n.log.bbook == [[]] && n.log.recv == []
  {
    var n0 := R.Begin(w, id, home, guard, xPriv, now);
    BeginGood(w, id, home, guard, xPriv, now);
    hide Good, CreateAtNode, DeliverCreated;
    GuardCreates(w, n0, yPriv, now);
    var n1 := CreateAtNode(w, n0, yPriv, now);
    GuardDelivers(w, n1);
    n := DeliverCreated(w, n1);
    RunSnoc(w, n0, [], n0, NodeCreates(yPriv, now));
    RunSnoc(w, n0, [] + [NodeCreates(yPriv, now)], n1, CreatedArrives);
    steps := [] + [NodeCreates(yPriv, now)] + [CreatedArrives];
  }

  /** The client asks for a second hop: one cell is on the first link, for the first relay. */
  lemma AsksSecond(w: World, n: Net, next: PeerId, xPriv: Key32, now: Instant)
    requires Good(w, n) && |n.client.hops| == 1 == |n.relays| && n.client.pending.None? && n.client.relayEarlyUsed == 0
    requires n.log.fbook == [[]] && n.log.bbook == [[]] && n.log.recv == []
    ensures F.Shape(Fwd(n)) && B.Shape(Bwd(n)) && Enabled(w, n, ClientExtends(next, xPriv, now))
    ensures var n1 := ExtendFromClient(w, n, next, xPriv, now);
            var f := SentFlight(w, n, 0, ExtendCell(w, next, xPriv));
            && Good(w, n1) && n1.log.fbook == [[f]] && n1.log.bbook == [[]] && n1.log.recv == [] && |n1.relays| == 1
            && f.span == 1 && f.addressed && Picks(Commanding(Extend2), f)
  {
    hide Good, Steady, ExtendFromClient, SentFlight, Picks, Word, Genuine, BuildExtend2, F.Inv, B.Inv, F.SendTo, StampDigest, Budget;
    GoodSteady(w, n);
    GoodSize(w, n);
    SteadyInv(w, n);
    var rc := ExtendCell(w, next, xPriv);
    ClientExtendsFrame(w, n, next, xPriv, now);
    ClientExtendsGood(w, n, next, xPriv, now);
    SendKeepsPipe(w, n, 0, rc);
    SentTo(w, n, 0, rc);
    SentRest(w, n, ExtendFromClient(w, n, next, xPriv, now), 0, rc);
    FirstOnLink(n.log.fbook, SentFlight(w, n, 0, rc));
  }

  lemma FirstOnLink(book: seq<seq<Flight>>, f: Flight)
    requires book == [[]]
    ensures book[0 := book[0] + [f]] == [[f]]
  {
    assert book[0] + [f] == [f];
  }

  lemma SentRest(w: World, n: Net, n': Net, target: nat, rc: RelayCell)
    requires SentBy(w, n, n', target, rc)
    ensures n'.log.fbook == F.SendTo(w.s, Fwd(n), target, rc).book && n'.log.bbook == n.log.bbook && n'.log.recv == n.log.recv
    ensures n'.relays == n.relays && |n'.client.hops| == |n.client.hops|
  {
    hide F.SendTo;
  }

  lemma SteadyInv(w: World, n: Net)
    requires Steady(w, n)
    ensures F.Inv(w.s, Fwd(n)) && B.Inv(w.s, Bwd(n)) && Links(n)
  {
    hide F.Inv, B.Inv;
  }

  lemma SentTo(w: World, n: Net, target: nat, rc: RelayCell)
    requires target < |n.client.hops|
    ensures var f := SentFlight(w, n, target, rc);
            && f.span == target + 1 && f.addressed
            && (FromPayload(f.plain).Some? && FromPayload(f.plain).value.command == rc.command ==> Picks(Commanding(rc.command), f))
  {
    hide ToPayload, FromPayload, StampDigest;
  }

  /** And the first relay takes it and asks the node meant. */
  lemma SecondAsked(w: World, n: Net, next: PeerId, nextCirc: CircuitId, xPriv: Key32, now: Instant) returns (n1: Net, n2: Net)
    requires Good(w, n) && |n.client.hops| == 1 == |n.relays| && n.client.pending.None? && n.client.relayEarlyUsed == 0
    requires n.log.fbook == [[]] && n.log.bbook == [[]] && n.log.recv == []
    ensures Enabled(w, n, ClientExtends(next, xPriv, now)) && F.Shape(Fwd(n)) && B.Shape(Bwd(n))
    ensures n1 == Next(w, n, ClientExtends(next, xPriv, now)) && F.Shape(Fwd(n1)) && B.Shape(Bwd(n1))
    ensures Enabled(w, n1, RelayTakes(0, nextCirc, now)) && NoMistake(w, n1, RelayTakes(0, nextCirc, now))
    ensures n2 == Next(w, n1, RelayTakes(0, nextCirc, now)) && Good(w, n2) && AtStage(w, n2, Creating)
    ensures |n2.relays| == 1 && n2.log.bbook == [[]] && n2.log.recv == []
  {
    hide Good, SentFlight, ExtendFromClient, TakeAtRelay, Picks, AtStage, ExtendCell, F.NotMistaken;
    AsksSecond(w, n, next, xPriv, now);
    n1 := ExtendFromClient(w, n, next, xPriv, now);
    GoodSize(w, n1);
    var f := SentFlight(w, n, 0, ExtendCell(w, next, xPriv));
    assert |Fwd(n1).wires[0]| == |Fwd(n1).book[0]| == 1;
    ToItself(w.s, Fwd(n1), f);
    TakesSecond(w, n1, nextCirc, now);
    n2 := TakeAtRelay(w, n1, 0, nextCirc, now);
  }

  lemma GoodSteady(w: World, n: Net)
    requires Good(w, n)
    ensures Steady(w, n)
  {
  }

  /** The addressee cannot mistake its own cell. */
  lemma ToItself(s: Suite, p: F.Pipe, f: Flight)
    requires F.Shape(p) && |p.wires| > 0 && p.wires[0] != [] && p.book[0][0] == f && f.addressed && f.span == 1
    ensures F.NotMistaken(s, p, 0)
  {
  }

  lemma TakesSecond(w: World, n: Net, nextCirc: CircuitId, now: Instant)
    requires Good(w, n) && F.Shape(Fwd(n)) && 0 < |n.down| && n.down[0] != [] && F.NotMistaken(w.s, Fwd(n), 0)
    requires |n.relays| == 1 && HeadDown(n, 0).span == 1 && Picks(Commanding(Extend2), HeadDown(n, 0))
    requires n.log.bbook == [[]] && n.log.recv == []
    ensures var n' := TakeAtRelay(w, n, 0, nextCirc, now);
            Good(w, n') && AtStage(w, n', Creating) && |n'.relays| == 1 && n'.log.bbook == [[]] && n'.log.recv == []
            && n'.client == n.client
  {
    hide Steady, AtStage, TakeAtRelay, Picks, ExtendsInFlight, F.NotMistaken, TakenBy, Extended;
    var stage :| AtStage(w, n, stage);
    ExtendIsAwaited(w, n, 0, stage);
    RelayTakesExtend(w, n, 0, nextCirc, now);
    TakesExtendFrame(w, n, 0, nextCirc, now);
    TakenBooks(w, n, TakeAtRelay(w, n, 0, nextCirc, now), 0);
    TakenRest(w, n, TakeAtRelay(w, n, 0, nextCirc, now), nextCirc);
  }

  lemma TakenRest(w: World, n: Net, n': Net, nextCirc: CircuitId)
    requires TakenBy(w, n, n', 0) && Extended(n, n', 0, nextCirc)
    ensures n'.log.recv == n.log.recv && |n'.relays| == |n.relays| && n'.client == n.client
  {
    hide F.RelayStep;
  }

  /** The node meant answers, and its answer goes back as EXTENDED2. */
  lemma SecondAnswered(w: World, n: Net, yPriv: Key32, now: Instant) returns (n1: Net, n2: Net)
    requires DhLaw(w.d) && Good(w, n) && AtStage(w, n, Creating) && |n.relays| == 1 && n.log.bbook == [[]] && n.log.recv == []
    ensures Enabled(w, n, NodeCreates(yPriv, now)) && F.Shape(Fwd(n)) && B.Shape(Bwd(n))
    ensures n1 == Next(w, n, NodeCreates(yPriv, now)) && F.Shape(Fwd(n1)) && B.Shape(Bwd(n1)) && Enabled(w, n1, CreatedArrives)
    ensures n2 == Next(w, n1, CreatedArrives) && Good(w, n2) && |n2.client.hops| == 1 && |n2.relays| == 2
    ensures F.Shape(Fwd(n2)) && B.Shape(Bwd(n2)) && Enabled(w, n2, ClientReceives(now)) && NoMistake(w, n2, ClientReceives(now))
    ensures Picks(Commanding(Extended2), HeadUp(n2))
  {
    hide Good, Steady, AtStage, CreateAtNode, Answer, DeliverCreated, Picks, B.NotMistaken, F.Shape, B.Shape, Joined, B.AddRelay;
    CreatingFits(w, n);
    NodeCreatesGood(w, n, yPriv, now);
    NodeCreatesFrame(w, n, yPriv, now);
    n1 := CreateAtNode(w, n, yPriv, now);
    JoinedBooks(n, n1, n1.relays[1]);
    n2 := AnswersSecond(w, n1);
  }

  lemma JoinedBooks(n: Net, n': Net, r: RelayCircuit)
    requires Joined(n, n', r) && |n.relays| == 1 && n.log.bbook == [[]]
    ensures n'.log.bbook == [[], []] && n'.log.recv == n.log.recv && |n'.relays| == 2 && n'.client == n.client
  {
    hide F.AddRelay;
  }

  lemma CreatingFits(w: World, n: Net)
    requires Good(w, n) && AtStage(w, n, Creating)
    ensures Steady(w, n) && n.create.Some? && |n.relays| < |n.path| && |n.client.hops| == |n.relays|
    ensures F.Shape(Fwd(n)) && B.Shape(Bwd(n))
  {
    SteadyShape(w, n);
    hide Steady, ExtendsInFlight, ExtendedsInFlight, Genuine;
  }

  lemma AnswersSecond(w: World, n: Net) returns (n': Net)
    requires Good(w, n) && n.created.Some? && |n.relays| == 2 && |n.client.hops| == 1 && n.log.bbook == [[], []] && n.log.recv == []
    ensures F.Shape(Fwd(n)) && B.Shape(Bwd(n)) && n' == DeliverCreated(w, n) && Good(w, n')
    ensures |n'.client.hops| == 1 && |n'.relays| == 2 && F.Shape(Fwd(n')) && B.Shape(Bwd(n'))
    ensures 0 < |n'.up| && n'.up[0] != [] && B.NotMistaken(w.s, Bwd(n')) && Picks(Commanding(Extended2), HeadUp(n'))
  {
    hide Good, Steady, DeliverCreated, Picks, OwnFlight, AtStage, Links, BuildExtended2, B.NotMistaken;
    GoodSteady(w, n);
    SteadyShape(w, n);
    ReplyingStage(w, n);
    CreatedArrivesGood(w, n);
    ReplyFrame(w, n);
    n' := DeliverCreated(w, n);
    var rc := RelayCell(Extended2, 0, 0, 0, BuildExtended2(n.created.value));
    SteadyLinks(w, n);
    ReplyLinks(w, n, n');
    EmittedSteady(w, n, n', 0, rc);
    var f := OwnFlight(w, n, 0, rc);
    EmittedRest(w, n, n', 0, rc);
    OwnSpan(w, n, 0, rc);
    GoodSize(w, n');
    assert |Bwd(n').wires[0]| == |Bwd(n').book[0]| == 1;
    ToClient(w.s, Bwd(n'), f);
  }

  lemma ReplyLinks(w: World, n: Net, n': Net)
    requires Links(n) && OnlyReply(n, n', 0) && n'.home == n.home && n'.path == n.path && n'.client == n.client
    ensures Links(n')
  {
    SameLinks(n, n');
  }

  lemma EmittedRest(w: World, n: Net, n': Net, o: nat, rc: RelayCell)
    requires EmittedBy(w, n, n', o, rc)
    ensures n'.log.recv == n.log.recv && n'.client == n.client && n'.home == n.home && |n'.relays| == |n.relays|
    ensures o < |n.relays| ==> OwnFlight(w, n, o, rc).addressed
  {
    hide StampDigest, ToPayload;
  }

  /** Nor the client one from its first hop. */
  lemma ToClient(s: Suite, p: B.Pipe, f: Flight)
    requires B.Shape(p) && |p.receiver| > 0 && |p.wires| > 0 && p.wires[0] != [] && p.book[0][0] == f && f.addressed && f.span == 1
    ensures B.NotMistaken(s, p)
  {
  }

  lemma ReplyingStage(w: World, n: Net)
    requires Good(w, n) && n.created.Some?
    ensures AtStage(w, n, Replying)
  {
    hide Steady, ExtendsInFlight, ExtendedsInFlight, Answer, Genuine, Word;
    var stage :| AtStage(w, n, stage);
  }

  /** The hypotheses of the theorems can be met: in every world, with any suite and any exchange that obeys the
      law, a client gets two hops and has a cell for the second on its way. Nothing it needs can be mistaken. */
  lemma TwoHops(
    w: World, id: CircuitId, home: PeerId, guard: PeerId, next: PeerId, nextCirc: CircuitId,
    xPriv: Key32, yPriv: Key32, now: Instant, rc: RelayCell) returns (steps: seq<Step>, n: Net)
    requires DhLaw(w.d) && rc.recognized == 0 && rc.digest == 0 && rc.command != Extend2
    ensures Run(w, R.Begin(w, id, home, guard, xPriv, now), steps, n)
    ensures |n.client.hops| == 2 && |n.down| == 2 && n.down[0] != [] && |n.told| == 2 && n.told[1] != []
  {
    hide Good, CreateAtNode, DeliverCreated, ExtendFromClient, TakeAtRelay, ReceiveAtClient, SendFromClient, AtStage, Picks, R.Begin,
         F.Shape, B.Shape, F.NotMistaken, B.NotMistaken, Run;
    var n0 := R.Begin(w, id, home, guard, xPriv, now);
    var s1, n1 := FirstHop(w, id, home, guard, xPriv, yPriv, now);
    var n2, n3 := SecondAsked(w, n1, next, nextCirc, xPriv, now);
    RunSnoc(w, n0, s1, n1, ClientExtends(next, xPriv, now));
    var s2 := s1 + [ClientExtends(next, xPriv, now)];
    RunSnoc(w, n0, s2, n2, RelayTakes(0, nextCirc, now));
    var s3 := s2 + [RelayTakes(0, nextCirc, now)];
    var n4, n5 := SecondAnswered(w, n3, yPriv, now);
    RunSnoc(w, n0, s3, n3, NodeCreates(yPriv, now));
    var s4 := s3 + [NodeCreates(yPriv, now)];
    RunSnoc(w, n0, s4, n4, CreatedArrives);
    var s5 := s4 + [CreatedArrives];
    ClientReceivesGood(w, n5, now);
    var n6 := ReceiveAtClient(w, n5, now);
    RunSnoc(w, n0, s5, n5, ClientReceives(now));
    var s6 := s5 + [ClientReceives(now)];
    GoodSize(w, n6);
    GoodBound(w, n6);
    ReceiptKeeps(w, n5, now);
    n := SendsSecond(w, n6, rc, now);
    RunSnoc(w, n0, s6, n6, ClientSends(1, rc, now));
    steps := s6 + [ClientSends(1, rc, now)];
  }

  lemma ReceiptKeeps(w: World, n: Net, now: Instant)
    requires B.Shape(Bwd(n)) && 0 < |n.up| && n.up[0] != []
    ensures var n' := ReceiveAtClient(w, n, now);
            n'.relays == n.relays && n'.log.fbook == n.log.fbook
  {
    hide OriginRelay, DecryptInbound, B.Receive;
  }

  lemma GoodBound(w: World, n: Net)
    requires Good(w, n)
    ensures |n.client.hops| <= |n.relays| == |n.down| == |n.told| == |n.log.fbook|
  {
    GoodSteady(w, n);
    hide AtStage, F.CellInv, F.HopInv, B.CellInv, B.CountInv, B.DigestInv, TalkAt, AllAddressed;
  }

  lemma SendsSecond(w: World, n: Net, rc: RelayCell, now: Instant) returns (n': Net)
    requires Good(w, n) && |n.client.hops| == 2 && |n.down| == 2 == |n.told| && |n.log.fbook| > 0
    requires rc.recognized == 0 && rc.digest == 0 && rc.command != Extend2
    ensures Enabled(w, n, ClientSends(1, rc, now)) && n' == SendFromClient(w, n, 1, rc, now)
    ensures |n'.client.hops| == 2 && |n'.down| == 2 && n'.down[0] != [] && |n'.told| == 2 && n'.told[1] != []
  {
    GoodSteady(w, n);
    SteadyShape(w, n);
    EncryptIsSend(w, n, n.client, 1, rc, now);
    hide Good, Steady, EncryptOutbound, F.SendTo;
    n' := SendFromClient(w, n, 1, rc, now);
  }
}

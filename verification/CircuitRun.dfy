/** One circuit being built and used: a client, a chain of relays, and first-in first-out links
    between them, every step being a handler of `phinet-core/src/circuit_mgr.rs`.

    Cells may be in flight on every link in both directions at any time, and the client may send and
    receive while it extends. */
module CircuitRun {
  import opened Wrappers
  import opened Bytes
  import opened Circuit
  import opened Ntor
  import opened ExtendCodec
  import opened Flow
  import opened CircuitState
  import F = ForwardPipe
  import B = BackwardPipe

  /** A node's static secret and where it listens. Nodes are named by their ids. */
  datatype Node = Node(bSecret: Key32, host: bytes, port: u16)

  datatype World = World(s: Suite, d: Dh, l: Labels, net: Dotted, nodes: PeerId -> Node)

  function StaticPub(w: World, id: PeerId): Key32 {
    w.d.pub(w.nodes(id).bSecret)
  }

  /** The link specifier the consensus gives a client for a node. */
  function SpecOf(w: World, id: PeerId): LinkSpec {
    LinkSpec(w.nodes(id).host, w.nodes(id).port, id, StaticPub(w, id))
  }

  /** Bookkeeping the handlers do not see; see `ForwardPipe` and `BackwardPipe`. */
  datatype Log = Log(
    fbook: seq<seq<Flight>>, sent: seq<Flight>, gone: seq<seq<Flight>>, fseeds: seq<bytes>,
    bbook: seq<seq<Flight>>, recv: seq<Flight>, bseeds: seq<bytes>)

  /** `home` is the client's node. `path[i]` is the leg on which the one before reaches the `i`-th node: its
      id, and the circuit id on the connection between the two. `asked` are the nodes the client asked for.
      `create` is a CREATE on its way to node `|relays|`, `created` the reply of node `|relays| - 1` on its way
      back. `told[i]` and `toldUp[i]` are the cells the client and relay `i` were asked to send
      to each other, `heard[i]` and `heardUp[i]` the cells that came out at the other end. */
  datatype Net = Net(
    home: PeerId, path: seq<Leg>, asked: seq<PeerId>, client: Origin, relays: seq<RelayCircuit>, down: seq<seq<Payload>>, up: seq<seq<Payload>>,
    create: Option<ClientMsg>, created: Option<ServerMsg>,
    told: seq<seq<RelayCell>>, heard: seq<seq<RelayCell>>,
    toldUp: seq<seq<RelayCell>>, heardUp: seq<seq<RelayCell>>, log: Log)

  function RelayForwards(rs: seq<RelayCircuit>): (r: seq<Half>)
    ensures |r| == |rs|
  {
    seq(|rs|, i requires 0 <= i < |rs| => rs[i].hop.forward)
  }

  function RelayBackwards(rs: seq<RelayCircuit>): (r: seq<Half>)
    ensures |r| == |rs|
  {
    seq(|rs|, i requires 0 <= i < |rs| => rs[i].hop.backward)
  }

  function Fwd(n: Net): F.Pipe {
    F.Pipe(Forwards(n.client.hops), RelayForwards(n.relays), n.down, n.log.fbook, n.log.sent, n.log.gone, n.log.fseeds)
  }

  function Bwd(n: Net): B.Pipe {
    B.Pipe(Backwards(n.client.hops), RelayBackwards(n.relays), n.up, n.log.bbook, n.log.recv, n.log.bseeds)
  }

  function WithFwd(log: Log, p: F.Pipe): Log {
    log.(fbook := p.book, sent := p.sent, gone := p.gone, fseeds := p.seeds)
  }

  function WithBwd(log: Log, p: B.Pipe): Log {
    log.(bbook := p.book, recv := p.recv, bseeds := p.seeds)
  }

  // ── Steps ───────────────────────────────────────────────────────────

  /** `start_circuit` at node `home` toward node `guard`. */
  function Begin(w: World, id: CircuitId, home: PeerId, guard: PeerId, xPriv: Key32, now: Instant): Net {
    var (hs, msg) := ClientHandshakeStart(w.d, guard, StaticPub(w, guard), xPriv);
    Net(home, [Leg(guard, id)], [guard], NewOrigin(id, guard, now).(pending := Some(hs)), [], [], [], Some(msg), None,
        [], [], [], [], Log([], [], [], [], [], [], []))
  }

  /** The leg on which the `i`-th node sees the circuit. */
  function From(n: Net, i: nat): Leg
    requires i < |n.path|
  {
    Leg(if i == 0 then n.home else n.path[i - 1].peer, n.path[i].circ)
  }

  datatype Step =
    | NodeCreates(yPriv: Key32, now: Instant)
    | CreatedArrives
    | ClientExtends(next: PeerId, xPriv: Key32, now: Instant)
    | ClientSends(target: nat, rc: RelayCell, now: Instant)
    | RelayTakes(j: nat, nextCirc: CircuitId, now: Instant)
    | RelaySends(o: nat, rc: RelayCell)
    | RelayPassesBack(j: nat)
    | ClientReceives(now: Instant)

  /** When an honest participant can take the step. The client waits for one extension to finish
      before it asks for the next, and only handshakes use the handshake commands. */
  predicate Enabled(w: World, n: Net, step: Step) {
    match step
    case NodeCreates(_, _) => n.create.Some? && |n.relays| < |n.path|
    case CreatedArrives => n.created.Some?
    case ClientExtends(_, _, _) =>
      n.client.pending.None? && n.client.hops != [] && n.client.relayEarlyUsed < MAX_RELAY_EARLY
    case ClientSends(target, rc, _) =>
      target < |n.client.hops| && rc.recognized == 0 && rc.digest == 0 && rc.command != Extend2
    case RelayTakes(j, _, _) => j < |n.down| && n.down[j] != []
    case RelaySends(o, rc) =>
      o < |n.client.hops| && rc.recognized == 0 && rc.digest == 0 && rc.command != Extended2
    case RelayPassesBack(j) => j + 1 < |n.up| && n.up[j + 1] != []
    case ClientReceives(_) => 0 < |n.up| && n.up[0] != []
  }

  function PushAt(logs: seq<seq<RelayCell>>, i: nat, rc: RelayCell): seq<seq<RelayCell>> {
    if i < |logs| then logs[i := logs[i] + [rc]] else logs
  }

  function CreateAtNode(w: World, n: Net, yPriv: Key32, now: Instant): Net
    requires n.create.Some? && |n.relays| < |n.path|
  {
    var id := n.path[|n.relays|].peer;
    match RelayCreated(w.d, w.l, From(n, |n.relays|), id, StaticPub(w, id), w.nodes(id).bSecret, n.create.value, yPriv, now)
    case Err(_) => n.(create := None)
    case Ok((r, cell)) =>
      n.(relays := n.relays + [r], down := n.down + [[]], up := n.up + [[]],
         create := None, created := Some(cell.payload[..SERVER_HANDSHAKE_LEN]),
         told := n.told + [[]], heard := n.heard + [[]], toldUp := n.toldUp + [[]], heardUp := n.heardUp + [[]],
         log := WithBwd(WithFwd(n.log, F.AddRelay(Fwd(n), r.hop.forward)), B.AddRelay(Bwd(n), r.hop.backward)))
  }

  /** The reply reaches the client if the new relay is its guard, the relay before it otherwise. */
  function DeliverCreated(w: World, n: Net): Net
    requires n.created.Some? && B.Shape(Bwd(n))
  {
    var reply := n.created.value;
    if |n.relays| <= 1 then
      n.(client := OriginCreated(w.d, w.l, n.client, reply).0, created := None)
    else
      var o := |n.relays| - 2;
      match RelayExtended(w.s, n.relays[o], reply)
      case Err(_) => n.(created := None)
      case Ok((r, cell)) =>
        var rc := RelayCell(Extended2, 0, 0, 0, BuildExtended2(reply));
        n.(relays := n.relays[o := r], up := n.up[o := n.up[o] + [cell.payload]], created := None,
           toldUp := PushAt(n.toldUp, o, rc),
           log := WithBwd(n.log, B.EmitOwn(w.s, Bwd(n), o, rc)))
  }

  function ExtendFromClient(w: World, n: Net, next: PeerId, xPriv: Key32, now: Instant): Net
    requires n.client.hops != [] && |n.down| > 0 && |n.log.fbook| > 0
  {
    var spec := SpecOf(w, next);
    var (client', r) := OriginExtend(w.s, w.d, w.net, n.client, spec, xPriv, now);
    match r
    case Err(_) => n.(client := client')
    case Ok(cell) =>
      var msg := ClientHandshakeStart(w.d, spec.nodeId, spec.staticPub, xPriv).1;
      var rc := RelayCell(Extend2, 0, 0, 0, BuildExtend2(w.net, spec, msg));
      var target := |n.client.hops| - 1;
      n.(client := client', asked := n.asked + [next], down := n.down[0 := n.down[0] + [cell.payload]],
         told := PushAt(n.told, target, rc),
         log := WithFwd(n.log, F.SendTo(w.s, Fwd(n), target, rc)))
  }

  function SendFromClient(w: World, n: Net, target: nat, rc: RelayCell, now: Instant): Net
    requires target < |n.client.hops| && |n.down| > 0 && |n.log.fbook| > 0
  {
    var (client', p) := EncryptOutbound(w.s, n.client, target, rc, now);
    match p
    case Err(_) => n.(client := client')
    case Ok(payload) =>
      n.(client := client', down := n.down[0 := n.down[0] + [payload]],
         told := PushAt(n.told, target, rc),
         log := WithFwd(n.log, F.SendTo(w.s, Fwd(n), target, rc)))
  }

  /** `handle_forward_relay`, and `begin_extend` toward the node it names when the cell it keeps is an
      EXTEND2; `nextCirc` is the circuit id drawn for the onward connection. */
  function TakeAtRelay(w: World, n: Net, j: nat, nextCirc: CircuitId, now: Instant): Net
    requires F.Shape(Fwd(n)) && j < |n.down| && n.down[j] != []
  {
    var (r, q, mine) := RelayPeel(w.s, n.relays[j], n.down[j][0], now);
    var log' := WithFwd(n.log, F.RelayStep(w.s, Fwd(n), j).0);
    var down1 := n.down[j := n.down[j][1..]];
    if mine.None? then
      if r.Next().Some? && j + 1 < |n.relays| then
        n.(relays := n.relays[j := r], down := down1[j + 1 := down1[j + 1] + [q]], log := log')
      else
        n.(relays := n.relays[j := r], down := down1, log := log')
    else
      var rc := mine.value;
      var n1 := n.(relays := n.relays[j := r], down := down1, log := log',
                   heard := PushAt(n.heard, j, rc.(digest := 0)));
      if rc.command != Extend2 then n1
      else
        match ExtendOnward(w.net, r, nextCirc, rc.data)
        case Err(_) => n1
        case Ok((r', next, cell)) =>
          n1.(relays := n.relays[j := r'], path := n.path + [next], create := Some(cell.payload[..CLIENT_HANDSHAKE_LEN]))
  }

  /** What a node does with an EXTEND2 of its own: the onward leg is the node named in it. */
  function ExtendOnward(net: Dotted, r: RelayCircuit, nextCirc: CircuitId, data: bytes)
    : Result<(RelayCircuit, Leg, Cell), CircuitError>
  {
    match Extend2Of(net, data)
    case Err(_) => Err(BadExtend)
    case Ok((spec, _)) =>
      var next := Leg(spec.nodeId, nextCirc);
      match RelayExtend(net, r, next, data)
      case Err(e) => Err(e)
      case Ok((r', cell)) => Ok((r', next, cell))
  }

  function SendFromRelay(w: World, n: Net, o: nat, rc: RelayCell): Net
    requires o < |n.relays| == |n.up| == |n.log.bbook|
  {
    var r := n.relays[o];
    var (rc', digest') := StampDigest(w.s, rc, r.hop.backward.digest);
    var (hop, p) := OnionBackward(w.s, r.hop.(backward := r.hop.backward.(digest := digest')), ToPayload(rc'));
    n.(relays := n.relays[o := r.(hop := hop)], up := n.up[o := n.up[o] + [p]],
       toldUp := PushAt(n.toldUp, o, rc),
       log := WithBwd(n.log, B.EmitOwn(w.s, Bwd(n), o, rc)))
  }

  /** `handle_backward_relay`. */
  function PassBack(w: World, n: Net, j: nat): Net
    requires B.Shape(Bwd(n)) && j + 1 < |n.up| && n.up[j + 1] != []
  {
    var (r, q) := RelayBackward(w.s, n.relays[j], n.up[j + 1][0]);
    n.(relays := n.relays[j := r], up := n.up[j + 1 := n.up[j + 1][1..]][j := n.up[j] + [q]],
       log := WithBwd(n.log, B.RelayWrap(w.s, Bwd(n), j)))
  }

  /** `handle_origin_relay`. */
  function ReceiveAtClient(w: World, n: Net, now: Instant): Net
    requires B.Shape(Bwd(n)) && 0 < |n.up| && n.up[0] != []
  {
    var (client', r) := OriginRelay(w.s, w.d, w.l, n.client, n.up[0][0], now);
    var found := DecryptInbound(w.s, n.client, n.up[0][0], now).1;
    n.(client := client', up := n.up[0 := n.up[0][1..]],
       heardUp := if found.Some? && found.value.0.FromHop?
                  then PushAt(n.heardUp, found.value.0.hop, found.value.1.(digest := 0)) else n.heardUp,
       log := WithBwd(n.log, B.Receive(w.s, Bwd(n)).0))
  }

  function Next(w: World, n: Net, step: Step): Net
    requires F.Shape(Fwd(n)) && B.Shape(Bwd(n)) && Enabled(w, n, step)
  {
    match step
    case NodeCreates(yPriv, now) => CreateAtNode(w, n, yPriv, now)
    case CreatedArrives => DeliverCreated(w, n)
    case ClientExtends(next, xPriv, now) => ExtendFromClient(w, n, next, xPriv, now)
    case ClientSends(target, rc, now) => SendFromClient(w, n, target, rc, now)
    case RelayTakes(j, nextCirc, now) => TakeAtRelay(w, n, j, nextCirc, now)
    case RelaySends(o, rc) => SendFromRelay(w, n, o, rc)
    case RelayPassesBack(j) => PassBack(w, n, j)
    case ClientReceives(now) => ReceiveAtClient(w, n, now)
  }

  /** The explicit hypothesis, step by step: nobody but the addressee recognizes a cell. */
  ghost predicate NoMistake(w: World, n: Net, step: Step)
    requires F.Shape(Fwd(n)) && B.Shape(Bwd(n)) && Enabled(w, n, step)
  {
    match step
    case RelayTakes(j, _, _) => F.NotMistaken(w.s, Fwd(n), j)
    case ClientReceives(_) => B.NotMistaken(w.s, Bwd(n))
    case _ => true
  }

  // ── What holds throughout ───────────────────────────────────────────

  /** What a flight said, before it was stamped. */
  function Word(f: Flight): RelayCell {
    match FromPayload(f.plain)
    case Some(rc) => rc.(digest := 0)
    case None => RelayCell(RelayCommand.Drop, 0, 0, 0, [])
  }

  function Words(fs: seq<Flight>): (r: seq<RelayCell>)
    ensures |r| == |fs|
  {
    seq(|fs|, i requires 0 <= i < |fs| => Word(fs[i]))
  }

  /** The cells between the client and the last relay, in each direction. */
  function DownInFlight(n: Net): seq<Flight> {
    if n.log.fbook == [] then [] else F.Wire(n.log.fbook, |n.log.fbook| - 1)
  }

  function UpInFlight(n: Net): seq<Flight> {
    B.Front([], n.log.bbook, |n.log.bbook|)
  }

  /** No cell of this circuit is end to end. */
  ghost predicate AllAddressed(log: Log) {
    && (forall f :: f in log.sent ==> f.addressed) && (forall f :: f in log.recv ==> f.addressed)
    && (forall j, k :: 0 <= j < |log.fbook| && 0 <= k < |log.fbook[j]| ==> log.fbook[j][k].addressed)
    && (forall j, k :: 0 <= j < |log.bbook| && 0 <= k < |log.bbook[j]| ==> log.bbook[j][k].addressed)
  }

  /** What was said and what was heard, hop by hop. */
  ghost predicate TalkAt(n: Net, i: nat)
    requires i < |n.told| == |n.heard| == |n.toldUp| == |n.heardUp| == |n.log.gone| == |n.log.bbook|
  {
    && n.told[i] == Words(Filter(n.log.sent, To(i)))
    && n.heard[i] == Words(Filter(n.log.gone[i], To(i)))
    && n.toldUp[i] == Words(Filter(B.Front(n.log.recv, n.log.bbook, i + 1), To(i)))
    && n.heardUp[i] == Words(Filter(n.log.recv, To(i)))
  }

  ghost predicate Talk(n: Net) {
    && |n.told| == |n.heard| == |n.toldUp| == |n.heardUp| == |n.log.gone| == |n.log.bbook| == |n.relays|
    && forall i :: 0 <= i < |n.told| ==> TalkAt(n, i)
  }

  /** Each relay knows the leg it is reached on, and, but for the last, the leg of the next. */
  ghost predicate Links(n: Net) {
    && |n.relays| <= |n.path| && n.path != [] && n.path[0] == Leg(n.client.peer, n.client.id)
    && (forall i :: 0 <= i < |n.relays| ==> Leg(n.relays[i].prevPeer, n.relays[i].prevCircId) == From(n, i))
    && (forall i :: 0 <= i < |n.relays| && i + 1 < |n.path| ==> n.relays[i].Next() == Some(n.path[i + 1]))
  }

  function Peers(path: seq<Leg>): (r: seq<PeerId>)
    ensures |r| == |path| && forall i :: 0 <= i < |path| ==> r[i] == path[i].peer
  {
    seq(|path|, i requires 0 <= i < |path| => path[i].peer)
  }

  /** The RELAY_EARLY budget. */
  predicate Budget(o: Origin) {
    && |o.hops| + (if o.pending.Some? then 1 else 0) <= 1 + o.relayEarlyUsed
    && o.relayEarlyUsed <= MAX_RELAY_EARLY
  }

  ghost predicate Steady(w: World, n: Net) {
    && F.Inv(w.s, Fwd(n)) && B.Inv(w.s, Bwd(n))
    && AllAddressed(n.log) && Talk(n) && Links(n)
    && n.client.e2e.None? && Budget(n.client)
  }

  // ── Where the handshake is ──────────────────────────────────────────

  datatype Stage = Idle | Extending | Creating | Replying | Finishing

  /** A handshake with the node it names, under the static key the consensus gives for it. */
  predicate Genuine(w: World, hs: ClientHandshake) {
    hs == ClientHandshakeStart(w.d, hs.serverId, StaticPub(w, hs.serverId), hs.xPriv).0
  }

  function MsgOf(hs: ClientHandshake): ClientMsg {
    hs.serverId + hs.serverB + hs.xPub
  }

  /** The relay at the end of the chain has answered: the client will accept `reply` and derive the
      very state that relay holds, which no cell has touched yet. */
  predicate Answer(w: World, n: Net, hs: ClientHandshake, reply: ServerMsg) {
    var h := |n.client.hops|;
    && h < |n.relays| == |n.log.gone| == |n.log.fseeds| == |n.log.bseeds|
    && var keys := ClientHandshakeFinish(w.d, w.l, hs, reply);
    && keys.Ok?
    && n.relays[h].hop == HopFromNtor(keys.value)
    && n.log.gone[h] == []
    && n.log.fseeds[h] == n.relays[h].hop.forward.digest
    && n.log.bseeds[h] == n.relays[h].hop.backward.digest
  }

  function ExtendsInFlight(n: Net): seq<Flight> {
    Filter(DownInFlight(n), Commanding(Extend2))
  }

  function ExtendedsInFlight(n: Net): seq<Flight> {
    Filter(UpInFlight(n), Commanding(Extended2))
  }

  predicate LastIsOpen(n: Net) {
    n.relays != [] ==> n.relays[|n.relays| - 1].nextPeer.None?
  }

  ghost predicate AtStage(w: World, n: Net, stage: Stage) {
    var h, m := |n.client.hops|, |n.relays|;
    match stage
    case Idle =>
      && n.client.pending.None? && n.create.None? && n.created.None? && m == h && LastIsOpen(n)
      && |n.path| == m && n.asked == Peers(n.path)
      && ExtendsInFlight(n) == [] && ExtendedsInFlight(n) == []
    case Extending =>
      && n.client.pending.Some? && n.create.None? && n.created.None? && 0 < m == h && LastIsOpen(n)
      && |n.path| == m && n.asked == Peers(n.path) + [n.client.pending.value.serverId]
      && Genuine(w, n.client.pending.value)
      && |ExtendsInFlight(n)| == 1 && ExtendedsInFlight(n) == []
      && var f := ExtendsInFlight(n)[0];
      && f.span == h
      && var hs := n.client.pending.value;
      && Word(f).data == BuildExtend2(w.net, SpecOf(w, hs.serverId), MsgOf(hs))
    case Creating =>
      && n.client.pending.Some? && n.created.None? && m == h
      && |n.path| == m + 1 && n.asked == Peers(n.path)
      && Genuine(w, n.client.pending.value) && n.path[h].peer == n.client.pending.value.serverId
      && n.create == Some(MsgOf(n.client.pending.value))
      && (h > 0 ==> n.relays[h - 1].awaitingExtended)
      && ExtendsInFlight(n) == [] && ExtendedsInFlight(n) == []
    case Replying =>
      && n.client.pending.Some? && n.create.None? && n.created.Some? && m == h + 1 && LastIsOpen(n)
      && |n.path| == m && n.asked == Peers(n.path)
      && Answer(w, n, n.client.pending.value, n.created.value)
      && (h > 0 ==> n.relays[h - 1].awaitingExtended)
      && ExtendsInFlight(n) == [] && ExtendedsInFlight(n) == []
    case Finishing =>
      && n.client.pending.Some? && n.create.None? && n.created.None? && 0 < h && m == h + 1 && LastIsOpen(n)
      && |n.path| == m && n.asked == Peers(n.path)
      && ExtendsInFlight(n) == [] && |ExtendedsInFlight(n)| == 1
      && var f := ExtendedsInFlight(n)[0];
      && f.span == h
      && exists reply: ServerMsg ::
        Word(f).data == BuildExtended2(reply) && Answer(w, n, n.client.pending.value, reply)
  }

  ghost predicate Good(w: World, n: Net) {
    Steady(w, n) && exists stage :: AtStage(w, n, stage)
  }

  // ── The client sends ────────────────────────────────────────────────

  /** `encrypt_outbound` is the pipe's send, and touches nothing else. */
  lemma EncryptIsSend(w: World, n: Net, o: Origin, target: nat, rc: RelayCell, now: Instant)
    requires F.Shape(Fwd(n)) && target < |n.client.hops| && |n.down| > 0 && n.client.e2e.None?
    requires o.hops == n.client.hops && o.e2e == n.client.e2e
    ensures var (o', p) := EncryptOutbound(w.s, o, target, rc, now);
            var q := F.SendTo(w.s, Fwd(n), target, rc);
            && p.Ok?
            && Forwards(o'.hops) == q.sender && Backwards(o'.hops) == Backwards(n.client.hops)
            && q.wires == n.down[0 := n.down[0] + [p.value]]
            && o' == o.(hops := o'.hops, lastActivity := now)
            && q.relays == Fwd(n).relays && q.gone == n.log.gone && q.seeds == n.log.fseeds
  {
    hide Layers;
  }

  /** The flight of a cell the client has just been asked to send. */
  function SentFlight(w: World, n: Net, target: nat, rc: RelayCell): Flight
    requires target < |n.client.hops|
  {
    var hs := Forwards(n.client.hops);
    Flight(target + 1, true, Nonces(hs)[..target + 1], ToPayload(StampDigest(w.s, rc, hs[target].digest).0))
  }

  lemma SendKeepsPipe(w: World, n: Net, target: nat, rc: RelayCell)
    requires F.Inv(w.s, Fwd(n)) && target < |n.client.hops| && |n.down| > 0
    requires rc.recognized == 0 && rc.digest == 0
    ensures var q := F.SendTo(w.s, Fwd(n), target, rc);
            var f := SentFlight(w, n, target, rc);
            && F.Inv(w.s, q)
            && q.sent == n.log.sent + [f]
            && q.book == n.log.fbook[0 := n.log.fbook[0] + [f]]
            && Word(f) == rc
            && FromPayload(f.plain).Some? && FromPayload(f.plain).value.command == rc.command
  {
    var p := Fwd(n);
    var (rc', digest') := StampDigest(w.s, rc, p.sender[target].digest);
    StampedIsRecognized(w.s, rc, p.sender[target].digest);
    hide Blank, ToPayload, FromPayload, Layers, Hist, Filter, F.Wire;
    var sender1 := p.sender[target := p.sender[target].(digest := digest')];
    F.SendPreserves(w.s, p, sender1, target + 1, true, ToPayload(rc'));
  }

  /** What a send leaves alone, and what it appends. */
  ghost predicate SentBy(w: World, n: Net, n': Net, target: nat, rc: RelayCell) {
    && F.Shape(Fwd(n)) && target < |n.client.hops| && |n.down| > 0
    && Fwd(n') == F.SendTo(w.s, Fwd(n), target, rc) && Bwd(n') == Bwd(n)
    && n'.relays == n.relays && n'.create == n.create && n'.created == n.created
    && n'.home == n.home && n'.path == n.path
    && |n'.client.hops| == |n.client.hops| && n'.client.peer == n.client.peer && n'.client.id == n.client.id
    && n'.told == PushAt(n.told, target, rc)
    && n'.heard == n.heard && n'.toldUp == n.toldUp && n'.heardUp == n.heardUp
  }

  lemma WordsSnoc(fs: seq<Flight>, f: Flight)
    ensures Words(fs + [f]) == Words(fs) + [Word(f)]
  {
    hide Word;
  }

  lemma SentTalk(w: World, n: Net, n': Net, target: nat, rc: RelayCell, f: Flight)
    requires SentBy(w, n, n', target, rc) && Talk(n)
    requires f.span == target + 1 && f.addressed && Word(f) == rc && n'.log.sent == n.log.sent + [f]
    requires n'.log.gone == n.log.gone && n'.log.recv == n.log.recv && n'.log.bbook == n.log.bbook
    ensures Talk(n')
  {
    hide Word, F.SendTo;
    forall i | 0 <= i < |n'.told|
      ensures TalkAt(n', i)
    {
      assert TalkAt(n, i);
      FilterConcat(n.log.sent, [f], To(i));
      FilterOne(f, To(i));
      var mine := Filter(n.log.sent, To(i));
      if i == target {
        WordsSnoc(mine, f);
      } else {
        assert mine + [] == mine;
      }
    }
  }

  lemma SentSteady(w: World, n: Net, n': Net, target: nat, rc: RelayCell)
    requires Steady(w, n) && SentBy(w, n, n', target, rc)
    requires rc.recognized == 0 && rc.digest == 0
    requires n'.client.e2e.None? && Budget(n'.client)
    ensures Steady(w, n')
    ensures var f := SentFlight(w, n, target, rc);
            ExtendsInFlight(n') == ExtendsInFlight(n) + (if rc.command == Extend2 then [f] else [])
    ensures ExtendedsInFlight(n') == ExtendedsInFlight(n)
    ensures Word(SentFlight(w, n, target, rc)) == rc
  {
    hide RecognizedPayload, ToPayload, FromPayload, Blank, Layers, Hist, StampDigest;
    var f := SentFlight(w, n, target, rc);
    SendKeepsPipe(w, n, target, rc);
    SentTalk(w, n, n', target, rc, f);
    SentInFlight(n, n', f);
    assert AllAddressed(n'.log);
  }

  lemma SentInFlight(n: Net, n': Net, f: Flight)
    requires n.log.fbook != [] && n'.log.fbook == n.log.fbook[0 := n.log.fbook[0] + [f]]
    ensures ExtendsInFlight(n') == ExtendsInFlight(n) + (if Picks(Commanding(Extend2), f) then [f] else [])
  {
    hide FromPayload, Filter, F.Wire;
    var last := |n.log.fbook| - 1;
    F.WireAppend0(n.log.fbook, f, last);
    FilterConcat(F.Wire(n.log.fbook, last), [f], Commanding(Extend2));
    FilterOne(f, Commanding(Extend2));
  }

  /** Steps that do not concern the handshake leave it where it is. */
  ghost predicate SameStage(n: Net, n': Net) {
    var h := |n.client.hops|;
    && n'.client.pending == n.client.pending && |n'.client.hops| == h
    && n'.path == n.path && n'.asked == n.asked
    && n'.create == n.create && n'.created == n.created
    && |n'.relays| == |n.relays| && |n'.log.gone| == |n.log.gone|
    && n'.log.fseeds == n.log.fseeds && n'.log.bseeds == n.log.bseeds
    && (forall i :: 0 <= i < |n.relays| ==>
      && n'.relays[i].nextPeer == n.relays[i].nextPeer && n'.relays[i].nextCircId == n.relays[i].nextCircId
      && n'.relays[i].awaitingExtended == n.relays[i].awaitingExtended)
    && (h < |n.relays| ==> n'.relays[h].hop == n.relays[h].hop)
    && (h < |n.log.gone| ==> n'.log.gone[h] == n.log.gone[h])
    && ExtendsInFlight(n') == ExtendsInFlight(n) && ExtendedsInFlight(n') == ExtendedsInFlight(n)
  }

  lemma SameLinks(n: Net, n': Net)
    requires Links(n) && n'.home == n.home && n'.path == n.path && |n'.relays| == |n.relays|
    requires n'.client.peer == n.client.peer && n'.client.id == n.client.id
    requires forall i :: 0 <= i < |n.relays| ==>
      && n'.relays[i].nextPeer == n.relays[i].nextPeer && n'.relays[i].nextCircId == n.relays[i].nextCircId
      && n'.relays[i].prevPeer == n.relays[i].prevPeer && n'.relays[i].prevCircId == n.relays[i].prevCircId
    ensures Links(n')
  {
  }

  lemma SameAnswer(w: World, n: Net, n': Net, hs: ClientHandshake, reply: ServerMsg)
    requires SameStage(n, n') && Answer(w, n, hs, reply)
    ensures Answer(w, n', hs, reply)
  {
    hide ClientHandshakeFinish, HopFromNtor, ExtendsInFlight, ExtendedsInFlight;
  }

  lemma StageKept(w: World, n: Net, n': Net, stage: Stage)
    requires SameStage(n, n') && AtStage(w, n, stage)
    ensures AtStage(w, n', stage)
  {
    hide ClientHandshakeFinish, HopFromNtor, ExtendsInFlight, ExtendedsInFlight, Word, Genuine, MsgOf,
         BuildExtend2, BuildExtended2, Answer;
    match stage
    case Idle =>
    case Extending =>
    case Creating =>
    case Replying =>
      SameAnswer(w, n, n', n.client.pending.value, n.created.value);
    case Finishing =>
      var reply: ServerMsg :|
        Word(ExtendedsInFlight(n)[0]).data == BuildExtended2(reply) && Answer(w, n, n.client.pending.value, reply);
      SameAnswer(w, n, n', n.client.pending.value, reply);
  }

  lemma ClientSendsGood(w: World, n: Net, target: nat, rc: RelayCell, now: Instant)
    requires F.Shape(Fwd(n)) && B.Shape(Bwd(n)) && Good(w, n) && Enabled(w, n, ClientSends(target, rc, now))
    ensures Good(w, SendFromClient(w, n, target, rc, now))
  {
    hide RecognizedPayload, ToPayload, FromPayload, Blank, Layers, Hist, StampDigest, Filter, F.Wire, F.HopInv, Word;
    var n' := SendFromClient(w, n, target, rc, now);
    EncryptIsSend(w, n, n.client, target, rc, now);
    SendKeepsPipe(w, n, target, rc);
    assert SentBy(w, n, n', target, rc);
    SentSteady(w, n, n', target, rc);
    var stage :| AtStage(w, n, stage);
    assert ExtendsInFlight(n) + [] == ExtendsInFlight(n);
    StageKept(w, n, n', stage);
  }

  /** The cell with which the client asks for the next node. */
  function ExtendCell(w: World, next: PeerId, xPriv: Key32): RelayCell {
    var spec := SpecOf(w, next);
    RelayCell(Extend2, 0, 0, 0, BuildExtend2(w.net, spec, ClientHandshakeStart(w.d, spec.nodeId, spec.staticPub, xPriv).1))
  }

  lemma ClientExtendsFrame(w: World, n: Net, next: PeerId, xPriv: Key32, now: Instant)
    requires Steady(w, n) && Enabled(w, n, ClientExtends(next, xPriv, now))
    ensures var n' := ExtendFromClient(w, n, next, xPriv, now);
            var hs := n'.client.pending;
            && SentBy(w, n, n', |n.client.hops| - 1, ExtendCell(w, next, xPriv))
            && n'.client.e2e.None? && Budget(n'.client)
            && n'.log.fseeds == n.log.fseeds && n'.asked == n.asked + [next]
            && hs.Some? && Genuine(w, hs.value) && hs.value.serverId == next
            && ExtendCell(w, next, xPriv).data == BuildExtend2(w.net, SpecOf(w, next), MsgOf(hs.value))
  {
    hide RecognizedPayload, ToPayload, FromPayload, Blank, Layers, Hist, StampDigest, Filter, F.Wire, F.HopInv, Word,
         BuildExtend2, F.SendTo, Talk, F.CellInv;
    var h := |n.client.hops|;
    var spec := SpecOf(w, next);
    var (hs, msg) := ClientHandshakeStart(w.d, spec.nodeId, spec.staticPub, xPriv);
    EncryptIsSend(w, n, n.client.(pending := Some(hs)), h - 1, ExtendCell(w, next, xPriv), now);
  }

  lemma IdleIfNonePending(w: World, n: Net)
    requires Good(w, n) && n.client.pending.None?
    ensures AtStage(w, n, Idle)
  {
    hide Steady, Answer, Genuine, ExtendsInFlight, ExtendedsInFlight, Word;
    var stage :| AtStage(w, n, stage);
  }

  lemma ClientExtendsStage(w: World, n: Net, n': Net, rc: RelayCell, f: Flight)
    requires n.client.hops != []
    requires AtStage(w, n, Idle) && SentBy(w, n, n', |n.client.hops| - 1, rc)
    requires n'.client.pending.Some? && Genuine(w, n'.client.pending.value)
    requires n'.asked == n.asked + [n'.client.pending.value.serverId]
    requires rc.data == BuildExtend2(w.net, SpecOf(w, n'.client.pending.value.serverId), MsgOf(n'.client.pending.value))
    requires ExtendsInFlight(n') == [f] && ExtendedsInFlight(n') == ExtendedsInFlight(n)
    requires f.span == |n.client.hops| && Word(f) == rc
    ensures AtStage(w, n', Extending)
  {
    hide BuildExtend2, F.SendTo, ExtendsInFlight, ExtendedsInFlight, Genuine, Word;
  }

  lemma ClientExtendsGood(w: World, n: Net, next: PeerId, xPriv: Key32, now: Instant)
    requires Good(w, n) && Enabled(w, n, ClientExtends(next, xPriv, now))
    ensures Good(w, ExtendFromClient(w, n, next, xPriv, now))
  {
    hide ExtendFromClient, AtStage, Steady, SentBy, Word, BuildExtend2, Genuine, ExtendsInFlight, ExtendedsInFlight,
         ToPayload, StampDigest, SpecOf, MsgOf;
    SteadyShape(w, n);
    var n' := ExtendFromClient(w, n, next, xPriv, now);
    var rc := ExtendCell(w, next, xPriv);
    IdleIfNonePending(w, n);
    ClientExtendsFrame(w, n, next, xPriv, now);
    SentSteady(w, n, n', |n.client.hops| - 1, rc);
    var f := SentFlight(w, n, |n.client.hops| - 1, rc);
    assert ExtendsInFlight(n) == [] by {
      IdleViews(w, n);
    }
    assert ExtendsInFlight(n') == [f];
    ClientExtendsStage(w, n, n', rc, f);
  }

  lemma IdleViews(w: World, n: Net)
    requires AtStage(w, n, Idle)
    ensures ExtendsInFlight(n) == [] && ExtendedsInFlight(n) == []
  {
  }

  // ── A relay takes a cell ────────────────────────────────────────────

  /** The flight at the head of link `j`. */
  function HeadDown(n: Net, j: nat): Flight
    requires F.Shape(Fwd(n)) && j < |n.down| && n.down[j] != []
  {
    n.log.fbook[j][0]
  }

  /** `handle_forward_relay` is the pipe's step: the relay keeps exactly the cells addressed to it,
      reading what was sent, and the rest go on. */
  lemma TakeIsStep(w: World, n: Net, j: nat, now: Instant)
    requires Steady(w, n) && j < |n.down| && n.down[j] != [] && F.NotMistaken(w.s, Fwd(n), j)
    ensures var f := HeadDown(n, j);
            var (p', outcome) := F.RelayStep(w.s, Fwd(n), j);
            var (r, q, mine) := RelayPeel(w.s, n.relays[j], n.down[j][0], now);
            && j < f.span <= |n.client.hops| && f.addressed
            && p'.relays == RelayForwards(n.relays)[j := r.hop.forward]
            && r == n.relays[j].(hop := n.relays[j].hop.(forward := r.hop.forward), lastActivity := now)
            && (f.span == j + 1 ==> FromPayload(f.plain).Some? && mine == Some(FromPayload(f.plain).value))
            && (f.span > j + 1 ==> mine.None? && outcome.Passed? && j + 1 < |n.relays|)
            && p'.wires == (if mine.Some? then n.down[j := n.down[j][1..]]
                            else n.down[j := n.down[j][1..]][j + 1 := n.down[j + 1] + [q]])
            && p'.book == (if mine.Some? then n.log.fbook[j := n.log.fbook[j][1..]]
                           else n.log.fbook[j := n.log.fbook[j][1..]][j + 1 := n.log.fbook[j + 1] + [f]])
            && p'.sender == Forwards(n.client.hops) && p'.sent == n.log.sent && p'.seeds == n.log.fseeds
            && p'.gone == n.log.gone[j := n.log.gone[j] + [f]]
  {
    var p := Fwd(n);
    F.StepOutcome(w.s, p, j);
    F.PeeledHead(w.s, p, j);
    assert n.log.fbook[j][0].addressed;
    hide FromPayload, Layers, Hist, Filter, F.Wire, F.HopInv, Blank, Layer;
  }

  /** What taking a cell leaves alone, whatever is then done about it. */
  ghost predicate TakenBy(w: World, n: Net, n': Net, j: nat) {
    && F.Shape(Fwd(n)) && j < |n.down| && n.down[j] != []
    && Fwd(n') == F.RelayStep(w.s, Fwd(n), j).0 && Bwd(n') == Bwd(n)
    && n'.client == n.client && n'.home == n.home && |n'.relays| == |n.relays|
    && n'.told == n.told && n'.toldUp == n.toldUp && n'.heardUp == n.heardUp
    && var f := HeadDown(n, j);
    && n'.heard == (if f.span == j + 1 then PushAt(n.heard, j, Word(f)) else n.heard)
  }

  lemma TakenTalk(w: World, n: Net, n': Net, j: nat)
    requires TakenBy(w, n, n', j) && Talk(n) && HeadDown(n, j).addressed
    requires n'.log.gone == n.log.gone[j := n.log.gone[j] + [HeadDown(n, j)]]
    requires n'.log.sent == n.log.sent && n'.log.recv == n.log.recv && n'.log.bbook == n.log.bbook
    ensures Talk(n')
  {
    hide Word, F.RelayStep;
    var f := HeadDown(n, j);
    forall i | 0 <= i < |n'.told|
      ensures TalkAt(n', i)
    {
      assert TalkAt(n, i);
      if i == j {
        var mine := Filter(n.log.gone[j], To(j));
        FilterConcat(n.log.gone[j], [f], To(j));
        FilterOne(f, To(j));
        if f.span == j + 1 {
          WordsSnoc(mine, f);
        } else {
          assert mine + [] == mine;
        }
      }
    }
  }

  /** The cells in flight after the head of link `j` has gone on or been kept. */
  lemma MovedView(book: seq<seq<Flight>>, j: nat, sel: Selector)
    requires j + 1 < |book| && book[j] != []
    ensures var book' := book[j := book[j][1..]][j + 1 := book[j + 1] + [book[j][0]]];
            Filter(F.Wire(book', |book| - 1), sel) == Filter(F.Wire(book, |book| - 1), sel)
  {
    hide Filter, F.Wire;
    F.WireMove(book, j, |book| - 1);
  }

  lemma KeptView(book: seq<seq<Flight>>, j: nat, sel: Selector)
    requires j < |book| && book[j] != [] && (j + 1 == |book| || !Picks(sel, book[j][0]))
    ensures var book' := book[j := book[j][1..]];
            var head := if Picks(sel, book[j][0]) then [book[j][0]] else [];
            Filter(F.Wire(book, |book| - 1), sel) == head + Filter(F.Wire(book', |book| - 1), sel)
  {
    hide FromPayload;
    var last := |book| - 1;
    if j == last {
      F.WirePop(book, j, j);
      var wire := F.Wire(book, j);
      assert wire == [book[j][0]] + wire[1..];
      FilterConcat([book[j][0]], wire[1..], sel);
      FilterOne(book[j][0], sel);
    } else {
      F.WirePopBeyond(book, j, last, sel);
      var rest := Filter(F.Wire(book[j := book[j][1..]], last), sel);
      assert [] + rest == rest;
    }
  }

  lemma HeadInView(book: seq<seq<Flight>>, j: nat, sel: Selector)
    requires j < |book| && book[j] != [] && Picks(sel, book[j][0])
    ensures book[j][0] in Filter(F.Wire(book, |book| - 1), sel)
  {
    hide FromPayload;
    F.WireMember(book, |book| - 1, j, 0);
    FilterMember(F.Wire(book, |book| - 1), sel, book[j][0]);
  }

  /** An EXTEND2 in flight disappears from view exactly when its addressee takes it. */
  lemma TakenInFlight(n: Net, n': Net, j: nat)
    requires j < |n.log.fbook| && n.log.fbook[j] != []
    requires var f := n.log.fbook[j][0];
             if f.span > j + 1 then
               && j + 1 < |n.log.fbook|
               && n'.log.fbook == n.log.fbook[j := n.log.fbook[j][1..]][j + 1 := n.log.fbook[j + 1] + [f]]
             else
               && n'.log.fbook == n.log.fbook[j := n.log.fbook[j][1..]]
               && (Picks(Commanding(Extend2), f) ==> j + 1 == |n.log.fbook|)
    ensures var f := n.log.fbook[j][0];
            ExtendsInFlight(n) ==
              (if f.span <= j + 1 && Picks(Commanding(Extend2), f) then [f] else []) + ExtendsInFlight(n')
  {
    hide Filter, F.Wire, Picks;
    var f := n.log.fbook[j][0];
    if f.span > j + 1 {
      MovedView(n.log.fbook, j, Commanding(Extend2));
      assert [] + ExtendsInFlight(n') == ExtendsInFlight(n');
    } else {
      KeptView(n.log.fbook, j, Commanding(Extend2));
    }
  }

  lemma TakenSteady(w: World, n: Net, n': Net, j: nat)
    requires Steady(w, n) && TakenBy(w, n, n', j) && F.NotMistaken(w.s, Fwd(n), j)
    requires Links(n')
    ensures Steady(w, n')
  {
    hide FromPayload, Layers, Hist, Filter, F.Wire, F.HopInv, Blank, Layer, Word;
    TakeIsStep(w, n, j, 0);
    F.StepPreserves(w.s, Fwd(n), j);
    TakenTalk(w, n, n', j);
    assert AllAddressed(n'.log) by {
      var f := HeadDown(n, j);
      forall l, k | 0 <= l < |n'.log.fbook| && 0 <= k < |n'.log.fbook[l]|
        ensures n'.log.fbook[l][k].addressed
      {
        F.StepWires(w.s, Fwd(n), j, l, k);
      }
    }
  }

  lemma HeadWord(f: Flight, c: RelayCommand)
    requires f.addressed
    ensures Picks(Commanding(c), f) <==> FromPayload(f.plain).Some? && FromPayload(f.plain).value.command == c
    ensures FromPayload(f.plain).Some? ==> Word(f) == FromPayload(f.plain).value.(digest := 0)
  {
    hide FromPayload;
  }

  /** What a step at relay `j` does besides moving the cell. */
  ghost predicate OnlyRelay(n: Net, n': Net, j: nat) {
    && n'.home == n.home && n'.path == n.path && n'.asked == n.asked
    && n'.create == n.create && n'.created == n.created && n'.log.bseeds == n.log.bseeds
    && |n'.relays| == |n.relays| && j < |n.relays|
    && n'.relays[j].nextPeer == n.relays[j].nextPeer && n'.relays[j].nextCircId == n.relays[j].nextCircId
    && n'.relays[j].prevPeer == n.relays[j].prevPeer && n'.relays[j].prevCircId == n.relays[j].prevCircId
    && n'.relays[j].awaitingExtended == n.relays[j].awaitingExtended
    && (forall i :: 0 <= i < |n.relays| && i != j ==> n'.relays[i] == n.relays[i])
  }

  lemma RelayTakesFrame(w: World, n: Net, j: nat, nextCirc: CircuitId, now: Instant)
    requires Steady(w, n) && j < |n.down| && n.down[j] != [] && F.NotMistaken(w.s, Fwd(n), j)
    requires !(HeadDown(n, j).span == j + 1 && Picks(Commanding(Extend2), HeadDown(n, j)))
    ensures var n' := TakeAtRelay(w, n, j, nextCirc, now);
            TakenBy(w, n, n', j) && OnlyRelay(n, n', j)
  {
    hide FromPayload, Layers, Hist, Filter, F.Wire, F.HopInv, Blank, Layer, F.RelayStep, Picks, F.CellInv, Word;
    var n' := TakeAtRelay(w, n, j, nextCirc, now);
    TakeIsStep(w, n, j, now);
    HeadWord(HeadDown(n, j), Extend2);
    assert j + 1 < |n.relays| ==> n.relays[j].Next().Some?;
    assert RelayForwards(n'.relays) == RelayForwards(n.relays)[j := n'.relays[j].hop.forward];
    assert RelayBackwards(n'.relays) == RelayBackwards(n.relays);
  }

  /** Taking any cell but an EXTEND2 leaves the handshake where it is. */
  lemma RelayTakesOther(w: World, n: Net, j: nat, nextCirc: CircuitId, now: Instant, stage: Stage)
    requires Steady(w, n) && AtStage(w, n, stage)
    requires j < |n.down| && n.down[j] != [] && F.NotMistaken(w.s, Fwd(n), j)
    requires !(HeadDown(n, j).span == j + 1 && Picks(Commanding(Extend2), HeadDown(n, j)))
    ensures var n' := TakeAtRelay(w, n, j, nextCirc, now);
            Steady(w, n') && AtStage(w, n', stage)
  {
    hide FromPayload, Layers, Hist, Filter, F.Wire, F.HopInv, Blank, Layer, F.RelayStep, Picks, Word, AtStage, Talk,
         TakeAtRelay, ExtendsInFlight, ExtendedsInFlight;
    var n' := TakeAtRelay(w, n, j, nextCirc, now);
    RelayTakesFrame(w, n, j, nextCirc, now);
    TakeIsStep(w, n, j, now);
    SameLinks(n, n');
    TakenSteady(w, n, n', j);
    TakenInFlight(n, n', j);
    assert [] + ExtendsInFlight(n') == ExtendsInFlight(n');
    TakenSame(n, n', j);
    StageKept(w, n, n', stage);
  }

  lemma TakenSame(n: Net, n': Net, j: nat)
    requires OnlyRelay(n, n', j) && n'.client == n.client && j < |n.client.hops|
    requires |n.log.gone| == |n.relays| && |n.log.fseeds| == |n.relays|
    requires n'.log.bbook == n.log.bbook && ExtendsInFlight(n') == ExtendsInFlight(n)
    requires j < |n.log.gone| == |n'.log.gone| && n'.log.gone == n.log.gone[j := n'.log.gone[j]] && n'.log.fseeds == n.log.fseeds
    ensures SameStage(n, n')
  {
    hide ExtendsInFlight, Filter, B.Front;
  }

  /** An EXTEND2 is taken by the last relay only, while the client waits for just that. */
  lemma ExtendIsAwaited(w: World, n: Net, j: nat, stage: Stage)
    requires Steady(w, n) && AtStage(w, n, stage)
    requires j < |n.down| && n.down[j] != [] && F.NotMistaken(w.s, Fwd(n), j)
    requires HeadDown(n, j).span == j + 1 && Picks(Commanding(Extend2), HeadDown(n, j))
    ensures stage == Extending && j + 1 == |n.relays| && ExtendsInFlight(n) == [HeadDown(n, j)]
  {
    hide FromPayload, Layers, Hist, Filter, F.Wire, F.HopInv, Blank, Layer, F.RelayStep, Word, Talk, BuildExtend2;
    HeadInView(n.log.fbook, j, Commanding(Extend2));
  }

  /** The relay at the end of the chain reads the client's handshake back and sends CREATE onward. */
  lemma ExtendAccepted(w: World, n: Net, j: nat, nextCirc: CircuitId, now: Instant)
    requires Steady(w, n) && AtStage(w, n, Extending)
    requires j < |n.down| && n.down[j] != [] && F.NotMistaken(w.s, Fwd(n), j)
    requires HeadDown(n, j).span == j + 1 == |n.relays| && Picks(Commanding(Extend2), HeadDown(n, j))
    requires ExtendsInFlight(n) == [HeadDown(n, j)]
    ensures var (r, q, mine) := RelayPeel(w.s, n.relays[j], n.down[j][0], now);
            var hs := n.client.pending.value;
            var leg := Leg(hs.serverId, nextCirc);
            && mine.Some? && mine.value.command == Extend2 && mine.value.(digest := 0) == Word(HeadDown(n, j))
            && ExtendOnward(w.net, r, nextCirc, mine.value.data)
            == Ok((r.(nextPeer := Some(leg.peer), nextCircId := Some(leg.circ), awaitingExtended := true), leg,
                   CellWithPayload(leg.circ, Create, MsgOf(hs))))
  {
    hide FromPayload, Layers, Hist, Filter, F.Wire, F.Inv, B.Inv, Blank, Layer, F.RelayStep, F.NotMistaken, Talk, BuildExtend2,
         ExtendOnward, Word, Picks, RelayPeel;
    SteadyShape(w, n);
    var f := HeadDown(n, j);
    var msg := MsgOf(n.client.pending.value);
    TakeIsStep(w, n, j, now);
    HeadWord(f, Extend2);
    ExtendRead(w, RelayPeel(w.s, n.relays[j], n.down[j][0], now).0, n.client.pending.value.serverId, nextCirc, msg);
  }

  /** `begin_extend` on what `extend_circuit` wrote: the very node meant is asked. */
  lemma ExtendRead(w: World, r: RelayCircuit, id: PeerId, nextCirc: CircuitId, msg: ClientMsg)
    requires r.nextPeer.None?
    ensures ExtendOnward(w.net, r, nextCirc, BuildExtend2(w.net, SpecOf(w, id), msg))
         == Ok((r.(nextPeer := Some(id), nextCircId := Some(nextCirc), awaitingExtended := true), Leg(id, nextCirc),
                CellWithPayload(nextCirc, Create, msg)))
  {
    hide BuildExtend2, Extend2Of;
    Extend2RoundTrip(w.net, SpecOf(w, id), msg);
  }

  /** The last relay has taken the EXTEND2: its onward leg is the node the client meant, and a CREATE with
      the client's handshake is on its way there. */
  ghost predicate Extended(n: Net, n': Net, j: nat, nextCirc: CircuitId) {
    && n.client.pending.Some? && j + 1 == |n.relays| == |n'.relays|
    && var hs := n.client.pending.value;
    && n'.home == n.home && n'.client == n.client && n'.asked == n.asked && n'.created == n.created
    && n'.path == n.path + [Leg(hs.serverId, nextCirc)] && n'.create == Some(MsgOf(hs))
    && n'.relays == n.relays[j := n'.relays[j]]
    && n'.relays[j].Next() == Some(Leg(hs.serverId, nextCirc)) && n'.relays[j].awaitingExtended
    && n'.relays[j].prevPeer == n.relays[j].prevPeer && n'.relays[j].prevCircId == n.relays[j].prevCircId
  }

  lemma TakesExtendFrame(w: World, n: Net, j: nat, nextCirc: CircuitId, now: Instant)
    requires Steady(w, n) && AtStage(w, n, Extending)
    requires j < |n.down| && n.down[j] != [] && F.NotMistaken(w.s, Fwd(n), j)
    requires HeadDown(n, j).span == j + 1 == |n.relays| && Picks(Commanding(Extend2), HeadDown(n, j))
    requires ExtendsInFlight(n) == [HeadDown(n, j)]
    ensures var n' := TakeAtRelay(w, n, j, nextCirc, now);
            TakenBy(w, n, n', j) && Extended(n, n', j, nextCirc)
  {
    hide FromPayload, Layers, Hist, Filter, F.Wire, F.HopInv, Blank, Layer, F.RelayStep, Word, Talk, Picks,
         ExtendsInFlight, ExtendedsInFlight, BuildExtend2, F.CellInv, ExtendOnward, B.Inv, Genuine;
    var n' := TakeAtRelay(w, n, j, nextCirc, now);
    ExtendAccepted(w, n, j, nextCirc, now);
    TakeIsStep(w, n, j, now);
    var msg := MsgOf(n.client.pending.value);
    assert (msg + Zeros(CELL_PAYLOAD - CLIENT_HANDSHAKE_LEN))[..CLIENT_HANDSHAKE_LEN] == msg;
    assert RelayForwards(n'.relays) == RelayForwards(n.relays)[j := n'.relays[j].hop.forward];
    assert RelayBackwards(n'.relays) == RelayBackwards(n.relays);
  }

  lemma ExtendedStage(w: World, n: Net, n': Net, j: nat, nextCirc: CircuitId)
    requires AtStage(w, n, Extending) && Extended(n, n', j, nextCirc)
    requires ExtendsInFlight(n') == [] && ExtendedsInFlight(n') == []
    ensures AtStage(w, n', Creating)
  {
    hide ExtendsInFlight, ExtendedsInFlight, BuildExtend2, Genuine, Word, MsgOf;
    assert Peers(n'.path) == Peers(n.path) + [n.client.pending.value.serverId];
  }

  lemma ExtendedLinks(n: Net, n': Net, j: nat, nextCirc: CircuitId)
    requires Links(n) && Extended(n, n', j, nextCirc) && |n.path| == |n.relays|
    ensures Links(n')
  {
    hide MsgOf;
  }

  lemma RelayTakesExtend(w: World, n: Net, j: nat, nextCirc: CircuitId, now: Instant)
    requires Steady(w, n) && AtStage(w, n, Extending)
    requires j < |n.down| && n.down[j] != [] && F.NotMistaken(w.s, Fwd(n), j)
    requires HeadDown(n, j).span == j + 1 == |n.relays| && Picks(Commanding(Extend2), HeadDown(n, j))
    requires ExtendsInFlight(n) == [HeadDown(n, j)]
    ensures var n' := TakeAtRelay(w, n, j, nextCirc, now);
            Steady(w, n') && AtStage(w, n', Creating)
  {
    TakesExtendFrame(w, n, j, nextCirc, now);
    assert |n.path| == |n.relays| && ExtendedsInFlight(n) == [];
    assert n.log.fbook[j] != [] && n.log.fbook[j][0] == HeadDown(n, j) && |n.log.fbook| == j + 1;
    TakeIsStep(w, n, j, now);
    SteadyLinks(w, n);
    hide AtStage, Steady, TakeAtRelay, TakenBy, ExtendsInFlight, ExtendedsInFlight, Picks, Extended, F.RelayStep;
    var n' := TakeAtRelay(w, n, j, nextCirc, now);
    ExtendedLinks(n, n', j, nextCirc);
    TakenSteady(w, n, n', j);
    TakenBooks(w, n, n', j);
    TakenInFlight(n, n', j);
    assert ExtendsInFlight(n') == [] by {
      assert |ExtendsInFlight(n)| == 1 + |ExtendsInFlight(n')|;
    }
    UpView(n, n');
    ExtendedStage(w, n, n', j, nextCirc);
  }

  lemma TakenBooks(w: World, n: Net, n': Net, j: nat)
    requires TakenBy(w, n, n', j)
    ensures n'.log.bbook == n.log.bbook && n'.log.fbook == F.RelayStep(w.s, Fwd(n), j).0.book
  {
    hide F.RelayStep;
  }

  lemma UpView(n: Net, n': Net)
    requires n'.log.bbook == n.log.bbook
    ensures ExtendedsInFlight(n') == ExtendedsInFlight(n)
  {
  }

  lemma RelayTakesGood(w: World, n: Net, j: nat, nextCirc: CircuitId, now: Instant)
    requires Good(w, n) && j < |n.down| && n.down[j] != [] && F.NotMistaken(w.s, Fwd(n), j)
    ensures Good(w, TakeAtRelay(w, n, j, nextCirc, now))
  {
    hide AtStage, Steady, TakeAtRelay, Picks;
    var stage :| AtStage(w, n, stage);
    assert F.Shape(Fwd(n)) by {
      SteadyShape(w, n);
    }
    if HeadDown(n, j).span == j + 1 && Picks(Commanding(Extend2), HeadDown(n, j)) {
      ExtendIsAwaited(w, n, j, stage);
      RelayTakesExtend(w, n, j, nextCirc, now);
    } else {
      RelayTakesOther(w, n, j, nextCirc, now, stage);
    }
  }

  lemma SteadyLinks(w: World, n: Net)
    requires Steady(w, n)
    ensures Links(n)
  {
  }

  lemma SteadyShape(w: World, n: Net)
    requires Steady(w, n)
    ensures F.Shape(Fwd(n)) && B.Shape(Bwd(n))
  {
  }

  // ── A relay sends a cell back ───────────────────────────────────────

  /** What a relay's own cell leaves alone, and what it appends. */
  ghost predicate EmittedBy(w: World, n: Net, n': Net, o: nat, rc: RelayCell) {
    && B.Shape(Bwd(n)) && o < |n.relays|
    && Bwd(n') == B.EmitOwn(w.s, Bwd(n), o, rc) && Fwd(n') == Fwd(n)
    && n'.client == n.client && n'.home == n.home && |n'.relays| == |n.relays|
    && n'.told == n.told && n'.heard == n.heard && n'.heardUp == n.heardUp
    && n'.toldUp == PushAt(n.toldUp, o, rc)
  }

  /** The flight of a relay's own cell. */
  function OwnFlight(w: World, n: Net, o: nat, rc: RelayCell): Flight
    requires o < |n.relays|
  {
    Flight(o + 1, true, [], ToPayload(StampDigest(w.s, rc, n.relays[o].hop.backward.digest).0))
  }

  lemma EmitKeepsPipe(w: World, n: Net, o: nat, rc: RelayCell)
    requires B.Inv(w.s, Bwd(n)) && o < |n.client.hops| && rc.recognized == 0 && rc.digest == 0
    ensures var q := B.EmitOwn(w.s, Bwd(n), o, rc);
            var f := OwnFlight(w, n, o, rc);
            && B.Inv(w.s, q)
            && q.recv == n.log.recv && q.book == n.log.bbook[o := n.log.bbook[o] + [f]]
            && Word(f) == rc
            && FromPayload(f.plain).Some? && FromPayload(f.plain).value.command == rc.command
  {
    var p := Bwd(n);
    var (rc', digest') := StampDigest(w.s, rc, p.relays[o].digest);
    StampedIsRecognized(w.s, rc, p.relays[o].digest);
    hide Blank, ToPayload, FromPayload, Layers, Hist, Filter, B.Front, B.CellInv, B.CountInv, B.DigestInv;
    B.EmitPreserves(w.s, p, p.relays[o := p.relays[o].(digest := digest')], o, true, ToPayload(rc'));
  }

  lemma EmittedTalk(w: World, n: Net, n': Net, o: nat, rc: RelayCell, f: Flight)
    requires EmittedBy(w, n, n', o, rc) && Talk(n)
    requires f.span == o + 1 && f.addressed && Word(f) == rc
    requires n'.log.bbook == n.log.bbook[o := n.log.bbook[o] + [f]]
    requires n'.log.recv == n.log.recv && n'.log.sent == n.log.sent && n'.log.gone == n.log.gone
    ensures Talk(n')
  {
    hide Word, B.EmitOwn;
    forall i | 0 <= i < |n'.told|
      ensures TalkAt(n', i)
    {
      assert TalkAt(n, i);
      B.FrontAppend(n.log.recv, n.log.bbook, o, f, i + 1, To(i));
      if i == o {
        B.FilterSnoc(B.Front(n.log.recv, n.log.bbook, i + 1), f, To(i));
        WordsSnoc(Filter(B.Front(n.log.recv, n.log.bbook, i + 1), To(i)), f);
      }
    }
  }

  lemma EmittedSteady(w: World, n: Net, n': Net, o: nat, rc: RelayCell)
    requires Steady(w, n) && EmittedBy(w, n, n', o, rc) && Links(n')
    requires o < |n.client.hops| && rc.recognized == 0 && rc.digest == 0
    ensures Steady(w, n')
    ensures Word(OwnFlight(w, n, o, rc)) == rc
    ensures Picks(Commanding(Extended2), OwnFlight(w, n, o, rc)) <==> rc.command == Extended2
    ensures n'.log.bbook == n.log.bbook[o := n.log.bbook[o] + [OwnFlight(w, n, o, rc)]]
  {
    hide RecognizedPayload, ToPayload, FromPayload, Blank, Layers, Hist, StampDigest, F.HopInv, F.CellInv, B.CellInv,
         B.CountInv, B.DigestInv;
    EmitKeepsPipe(w, n, o, rc);
    EmittedTalk(w, n, n', o, rc, OwnFlight(w, n, o, rc));
    assert AllAddressed(n'.log);
  }

  /** `SendFromRelay` and the EXTENDED2 of `handle_created_from_next` are both the pipe's `EmitOwn`. */
  lemma RelaySendsFrame(w: World, n: Net, o: nat, rc: RelayCell)
    requires Steady(w, n) && o < |n.client.hops|
    ensures var n' := SendFromRelay(w, n, o, rc);
            EmittedBy(w, n, n', o, rc) && OnlyRelay(n, n', o)
            && n'.relays[o].hop.forward == n.relays[o].hop.forward
  {
    hide RecognizedPayload, ToPayload, FromPayload, Blank, Layers, Hist, StampDigest, F.HopInv, F.CellInv, B.CellInv,
         B.CountInv, B.DigestInv, Talk;
    var n' := SendFromRelay(w, n, o, rc);
    assert RelayForwards(n'.relays) == RelayForwards(n.relays);
    assert RelayBackwards(n'.relays) == B.EmitOwn(w.s, Bwd(n), o, rc).relays;
  }

  lemma EmittedView(n: Net, n': Net, o: nat, f: Flight)
    requires o < |n.log.bbook| && n'.log.bbook == n.log.bbook[o := n.log.bbook[o] + [f]]
    requires !Picks(Commanding(Extended2), f)
    ensures ExtendedsInFlight(n') == ExtendedsInFlight(n)
  {
    hide FromPayload, Filter, B.Front, Picks;
    B.FrontAppend([], n.log.bbook, o, f, |n.log.bbook|, Commanding(Extended2));
    if o + 1 == |n.log.bbook| {
      B.FilterSnoc(B.Front([], n.log.bbook, |n.log.bbook|), f, Commanding(Extended2));
      assert ExtendedsInFlight(n) + [] == ExtendedsInFlight(n);
    }
  }

  lemma DownView(n: Net, n': Net)
    requires n'.log.fbook == n.log.fbook
    ensures ExtendsInFlight(n') == ExtendsInFlight(n)
  {
  }

  lemma RelaySendsGood(w: World, n: Net, o: nat, rc: RelayCell)
    requires o < |n.relays| == |n.up| == |n.log.bbook|
    requires F.Shape(Fwd(n)) && B.Shape(Bwd(n)) && Good(w, n) && Enabled(w, n, RelaySends(o, rc))
    ensures Good(w, SendFromRelay(w, n, o, rc))
  {
    hide RecognizedPayload, ToPayload, FromPayload, Blank, Layers, Hist, StampDigest, F.HopInv, F.CellInv, B.CellInv,
         B.CountInv, B.DigestInv, Talk, ExtendsInFlight, ExtendedsInFlight, AtStage, Word, Picks, SendFromRelay;
    var stage :| AtStage(w, n, stage);
    var n' := SendFromRelay(w, n, o, rc);
    RelaySendsFrame(w, n, o, rc);
    SameLinks(n, n');
    EmittedSteady(w, n, n', o, rc);
    EmittedView(n, n', o, OwnFlight(w, n, o, rc));
    DownView(n, n');
    assert SameStage(n, n');
    StageKept(w, n, n', stage);
  }

  // ── A relay adds its layer ──────────────────────────────────────────

  lemma PassBackFrame(w: World, n: Net, j: nat)
    requires Steady(w, n) && j + 1 < |n.up| && n.up[j + 1] != []
    ensures var n' := PassBack(w, n, j);
            && Bwd(n') == B.RelayWrap(w.s, Bwd(n), j) && Fwd(n') == Fwd(n)
            && OnlyRelay(n, n', j) && n'.client == n.client
            && n'.told == n.told && n'.heard == n.heard && n'.toldUp == n.toldUp && n'.heardUp == n.heardUp
            && n'.log.recv == n.log.recv
            && j < |n.client.hops|
  {
    hide FromPayload, Blank, Layers, Hist, F.HopInv, F.CellInv, B.CountInv, B.DigestInv, Talk;
    var n' := PassBack(w, n, j);
    assert RelayForwards(n'.relays) == RelayForwards(n.relays);
    assert RelayBackwards(n'.relays) == B.RelayWrap(w.s, Bwd(n), j).relays;
    var p := Bwd(n);
    assert B.CellInv(w.s, p, j + 1, B.Ahead(p, j + 1, 0), p.book[j + 1][0], p.wires[j + 1][0]);
  }

  lemma PassBackViews(n: Net, n': Net, j: nat)
    requires j + 1 < |n.log.bbook| && n.log.bbook[j + 1] != []
    requires n'.log == n.log.(bbook := n.log.bbook[j + 1 := n.log.bbook[j + 1][1..]][j := n.log.bbook[j] + [n.log.bbook[j + 1][0]]])
    requires n.log.bbook[j + 1][0].span > j + 1
    requires n'.told == n.told && n'.heard == n.heard && n'.toldUp == n.toldUp && n'.heardUp == n.heardUp
    requires |n'.relays| == |n.relays| && Talk(n) && AllAddressed(n.log)
    ensures ExtendedsInFlight(n') == ExtendedsInFlight(n) && Talk(n') && AllAddressed(n'.log)
  {
    hide FromPayload, Word;
    var book := n.log.bbook;
    B.FrontMove([], book, j, |book|);
    assert B.Front([], book, |book|) + [] == B.Front([], book, |book|);
    forall i | 0 <= i < |n'.told|
      ensures TalkAt(n', i)
    {
      assert TalkAt(n, i);
      var front := B.Front(n.log.recv, book, i + 1);
      B.FrontMove(n.log.recv, book, j, i + 1);
      if i == j {
        B.FilterSnoc(front, book[j + 1][0], To(i));
        assert Filter(front, To(i)) + [] == Filter(front, To(i));
      } else {
        assert front + [] == front;
      }
    }
  }

  lemma PassBackGood(w: World, n: Net, j: nat)
    requires Good(w, n) && j + 1 < |n.up| && n.up[j + 1] != []
    ensures Good(w, PassBack(w, n, j))
  {
    hide RecognizedPayload, ToPayload, FromPayload, Blank, Layers, Hist, F.HopInv, F.CellInv,
         B.CountInv, B.DigestInv, Talk, ExtendsInFlight, ExtendedsInFlight, AtStage, Word, PassBack, B.Front;
    var stage :| AtStage(w, n, stage);
    var p, n' := Bwd(n), PassBack(w, n, j);
    PassBackFrame(w, n, j);
    assert B.CellInv(w.s, p, j + 1, B.Ahead(p, j + 1, 0), p.book[j + 1][0], p.wires[j + 1][0]);
    B.WrapPreserves(w.s, p, j);
    PassBackViews(n, n', j);
    SameLinks(n, n');
    assert Steady(w, n');
    DownView(n, n');
    assert SameStage(n, n');
    StageKept(w, n, n', stage);
  }

  // ── A node answers CREATE ───────────────────────────────────────────

  /** The node addressed accepts the client's handshake, and its reply agrees with the client. */
  lemma NodeAccepts(w: World, hs: ClientHandshake, from: Leg, yPriv: Key32, now: Instant)
    requires DhLaw(w.d) && Genuine(w, hs)
    ensures var id := hs.serverId;
            var r := RelayCreated(w.d, w.l, from, id, StaticPub(w, id), w.nodes(id).bSecret, MsgOf(hs), yPriv, now);
            && r.Ok?
            && var reply := r.value.1.payload[..SERVER_HANDSHAKE_LEN];
            && ClientHandshakeFinish(w.d, w.l, hs, reply).Ok?
            && r.value.0.hop == HopFromNtor(ClientHandshakeFinish(w.d, w.l, hs, reply).value)
            && r.value.0.nextPeer.None? && Leg(r.value.0.prevPeer, r.value.0.prevCircId) == from
            && r.value.0.hop.forward.nonce == 0 && r.value.0.hop.backward.nonce == 0
  {
    var id, bSecret := hs.serverId, w.nodes(hs.serverId).bSecret;
    NtorAgreement(w.d, w.l, id, bSecret, hs.xPriv, yPriv, id, bSecret);
    var (keys, reply) := ServerHandshake(w.d, w.l, id, w.d.pub(bSecret), bSecret, MsgOf(hs), yPriv).value;
    assert (reply + Zeros(CELL_PAYLOAD - SERVER_HANDSHAKE_LEN))[..SERVER_HANDSHAKE_LEN] == reply;
    hide ServerHandshake, ClientHandshakeFinish;
  }

  /** The chain has one more relay, through which nothing has passed. */
  ghost predicate Joined(n: Net, n': Net, r: RelayCircuit) {
    && F.Shape(Fwd(n)) && B.Shape(Bwd(n))
    && n'.relays == n.relays + [r] && n'.client == n.client
    && n'.home == n.home && n'.path == n.path && n'.asked == n.asked
    && Fwd(n') == F.AddRelay(Fwd(n), r.hop.forward) && Bwd(n') == B.AddRelay(Bwd(n), r.hop.backward)
    && n'.told == n.told + [[]] && n'.heard == n.heard + [[]]
    && n'.toldUp == n.toldUp + [[]] && n'.heardUp == n.heardUp + [[]]
  }

  lemma JoinedTalk(w: World, n: Net, n': Net, r: RelayCircuit)
    requires Steady(w, n) && Joined(n, n', r) && |n.client.hops| == |n.relays|
    requires B.Inv(w.s, Bwd(n'))
    ensures Talk(n')
  {
    hide Word, F.HopInv, F.CellInv, B.CellInv, B.CountInv, B.DigestInv, Filter, B.Front;
    var m := |n.relays|;
    forall i | 0 <= i < |n'.told|
      ensures TalkAt(n', i)
    {
      if i < m {
        assert TalkAt(n, i);
        B.FrontSame(n.log.recv, n.log.bbook, n'.log.bbook, i + 1);
      } else {
        FilterNone(n.log.sent, To(m));
        FilterNone([], To(m));
        B.NothingBeyond(w.s, Bwd(n'), m + 1, m);
      }
    }
  }

  lemma JoinedSteady(w: World, n: Net, n': Net, r: RelayCircuit)
    requires Steady(w, n) && Joined(n, n', r) && |n.client.hops| == |n.relays| && Links(n')
    requires r.hop.forward.nonce == 0 && r.hop.backward.nonce == 0
    ensures Steady(w, n')
    ensures ExtendsInFlight(n') == ExtendsInFlight(n) && ExtendedsInFlight(n') == ExtendedsInFlight(n)
  {
    hide Word, F.HopInv, F.CellInv, B.CellInv, B.CountInv, B.DigestInv, Talk, Filter;
    var m := |n.relays|;
    F.AddRelayPreserves(w.s, Fwd(n), r.hop.forward);
    B.AddRelayPreserves(w.s, Bwd(n), r.hop.backward);
    JoinedTalk(w, n, n', r);
    JoinedViews(n, n', r);
    assert AllAddressed(n'.log);
  }

  lemma JoinedViews(n: Net, n': Net, r: RelayCircuit)
    requires Joined(n, n', r)
    ensures DownInFlight(n') == DownInFlight(n) && UpInFlight(n') == UpInFlight(n)
  {
    var m := |n.relays|;
    B.FrontSame([], n.log.bbook, n'.log.bbook, m);
    assert B.Front([], n.log.bbook, m) + [] == B.Front([], n.log.bbook, m);
    if m > 0 {
      F.WireSame(n.log.fbook, n'.log.fbook, m - 1);
      assert [] + F.Wire(n.log.fbook, m - 1) == F.Wire(n.log.fbook, m - 1);
    }
  }

  lemma NodeCreatesFrame(w: World, n: Net, yPriv: Key32, now: Instant)
    requires DhLaw(w.d) && Steady(w, n) && AtStage(w, n, Creating)
    ensures var n' := CreateAtNode(w, n, yPriv, now);
            && |n'.relays| == |n.relays| + 1
            && var r := n'.relays[|n.relays|];
            && Joined(n, n', r) && Leg(r.prevPeer, r.prevCircId) == From(n, |n.relays|)
            && r.hop.forward.nonce == 0 && r.hop.backward.nonce == 0 && r.nextPeer.None?
            && n'.create.None? && n'.created.Some?
            && Answer(w, n', n'.client.pending.value, n'.created.value)
  {
    hide Word, F.HopInv, F.CellInv, B.CellInv, B.CountInv, B.DigestInv, Talk, ClientHandshakeFinish, RelayCreated,
         ExtendsInFlight, ExtendedsInFlight, F.Inv, B.Inv, Genuine, HopFromNtor;
    SteadyShape(w, n);
    var hs, m := n.client.pending.value, |n.relays|;
    NodeAccepts(w, hs, From(n, m), yPriv, now);
    var n' := CreateAtNode(w, n, yPriv, now);
    var r := n'.relays[m];
    assert RelayForwards(n'.relays) == RelayForwards(n.relays) + [r.hop.forward];
    assert RelayBackwards(n'.relays) == RelayBackwards(n.relays) + [r.hop.backward];
  }

  lemma JoinedLinks(n: Net, n': Net, r: RelayCircuit)
    requires Links(n) && |n.path| == |n.relays| + 1 && Joined(n, n', r)
    requires Leg(r.prevPeer, r.prevCircId) == From(n, |n.relays|)
    ensures Links(n')
  {
    hide F.AddRelay, B.AddRelay;
    assert forall i :: 0 <= i < |n.relays| ==> n'.relays[i] == n.relays[i];
  }

  /** An honest node always answers, and the chain is one relay longer. */
  lemma NodeCreatesGood(w: World, n: Net, yPriv: Key32, now: Instant)
    requires DhLaw(w.d) && Good(w, n) && Enabled(w, n, NodeCreates(yPriv, now))
    ensures var n' := CreateAtNode(w, n, yPriv, now);
            Good(w, n') && n'.created.Some? && |n'.relays| == |n.relays| + 1
  {
    hide Steady, CreateAtNode, ExtendsInFlight, ExtendedsInFlight, Answer, Links, Genuine, MsgOf, BuildExtend2, BuildExtended2, Word;
    var stage :| AtStage(w, n, stage);
    assert stage == Creating;
    var n' := CreateAtNode(w, n, yPriv, now);
    NodeCreatesFrame(w, n, yPriv, now);
    SteadyLinks(w, n);
    JoinedLinks(n, n', n'.relays[|n.relays|]);
    JoinedSteady(w, n, n', n'.relays[|n.relays|]);
    assert AtStage(w, n', Replying);
  }

  // ── The client learns a hop ─────────────────────────────────────────

  /** The client accepts the reply and from then on holds the last relay's very state. */
  lemma HopLearned(w: World, n: Net, n': Net, reply: ServerMsg)
    requires Steady(w, n) && n.client.pending.Some? && |n.relays| == |n.client.hops| + 1
    requires Answer(w, n, n.client.pending.value, reply)
    requires n' == n.(client := OriginCreated(w.d, w.l, n.client, reply).0, created := n'.created)
    ensures n'.client.hops == n.client.hops + [n.relays[|n.client.hops|].hop] && n'.client.pending.None?
    ensures Steady(w, n')
  {
    hide Word, F.HopInv, F.CellInv, B.CellInv, B.CountInv, B.DigestInv, TalkAt, ClientHandshakeFinish;
    var h := |n.client.hops|;
    var hop := n.relays[h].hop;
    assert Forwards(n'.client.hops) == Forwards(n.client.hops) + [hop.forward];
    assert Backwards(n'.client.hops) == Backwards(n.client.hops) + [hop.backward];
    F.AddHopPreserves(w.s, Fwd(n));
    B.AddHopPreserves(w.s, Bwd(n));
    assert Fwd(n') == F.AddHop(Fwd(n), hop.forward);
    assert Bwd(n') == B.AddHop(Bwd(n), hop.backward);
    LearnedTalk(n, n');
  }

  lemma LearnedTalk(n: Net, n': Net)
    requires Talk(n) && |n'.relays| == |n.relays|
    requires n'.told == n.told && n'.heard == n.heard && n'.toldUp == n.toldUp && n'.heardUp == n.heardUp && n'.log == n.log
    ensures Talk(n')
  {
    hide Words;
    forall i | 0 <= i < |n'.told|
      ensures TalkAt(n', i)
    {
      assert TalkAt(n, i);
    }
  }

  lemma GuardAnswers(w: World, n: Net)
    requires Steady(w, n) && AtStage(w, n, Replying) && |n.relays| == 1
    ensures var n' := DeliverCreated(w, n);
            Steady(w, n') && AtStage(w, n', Idle) && |n'.client.hops| == 1
  {
    hide Steady, ExtendsInFlight, ExtendedsInFlight, Answer, Genuine, MsgOf, Word, OriginCreated;
    SteadyShape(w, n);
    var n' := DeliverCreated(w, n);
    HopLearned(w, n, n', n.created.value);
    SameViews(n, n');
  }

  lemma SameViews(n: Net, n': Net)
    requires n'.log.fbook == n.log.fbook && n'.log.bbook == n.log.bbook
    ensures ExtendsInFlight(n') == ExtendsInFlight(n) && ExtendedsInFlight(n') == ExtendedsInFlight(n)
  {
  }

  // ── A relay passes CREATED on as EXTENDED2 ──────────────────────────

  /** What answering toward the client does to the relays. */
  ghost predicate OnlyReply(n: Net, n': Net, o: nat) {
    && |n'.relays| == |n.relays| && o < |n.relays|
    && n'.relays == n.relays[o := n'.relays[o]]
    && n'.relays[o].nextPeer == n.relays[o].nextPeer && n'.relays[o].nextCircId == n.relays[o].nextCircId
    && n'.relays[o].prevPeer == n.relays[o].prevPeer && n'.relays[o].prevCircId == n.relays[o].prevCircId
  }

  lemma ReplyFrame(w: World, n: Net)
    requires Steady(w, n) && AtStage(w, n, Replying) && |n.relays| > 1
    ensures var n' := DeliverCreated(w, n);
            var o := |n.relays| - 2;
            && EmittedBy(w, n, n', o, RelayCell(Extended2, 0, 0, 0, BuildExtended2(n.created.value)))
            && n'.create == n.create && n'.created.None?
            && n'.log.bseeds == n.log.bseeds && n'.log.fseeds == n.log.fseeds
            && n'.relays[|n.relays| - 1] == n.relays[|n.relays| - 1]
            && n'.path == n.path && n'.asked == n.asked
            && OnlyReply(n, n', o)
  {
    hide RecognizedPayload, ToPayload, FromPayload, Blank, Layers, Hist, StampDigest, F.HopInv, F.CellInv, B.CellInv,
         B.CountInv, B.DigestInv, Talk, Answer, ExtendsInFlight, ExtendedsInFlight, BuildExtended2;
    var n' := DeliverCreated(w, n);
    var o := |n.relays| - 2;
    var rc := RelayCell(Extended2, 0, 0, 0, BuildExtended2(n.created.value));
    assert RelayForwards(n'.relays) == RelayForwards(n.relays);
    assert RelayBackwards(n'.relays) == B.EmitOwn(w.s, Bwd(n), o, rc).relays;
  }

  /** One EXTENDED2 put in just before an untouched last relay is the only one in flight. */
  lemma EmittedOnly(n: Net, n': Net, o: nat, f: Flight)
    requires o + 2 == |n.log.bbook| && n'.log.bbook == n.log.bbook[o := n.log.bbook[o] + [f]]
    requires Picks(Commanding(Extended2), f) && ExtendedsInFlight(n) == []
    ensures ExtendedsInFlight(n') == [f]
  {
    hide Picks, B.Front, Filter;
    var sel := Commanding(Extended2);
    var front, last := B.Front([], n.log.bbook, o + 1), n.log.bbook[o + 1];
    B.FrontAppend([], n.log.bbook, o, f, o + 1, sel);
    assert UpInFlight(n) == front + last by {
      FrontNext([], n.log.bbook, o + 1);
    }
    assert UpInFlight(n') == (front + [f]) + last by {
      FrontNext([], n'.log.bbook, o + 1);
    }
    FilterConcat(front, last, sel);
    FilterConcat(front + [f], last, sel);
    B.FilterSnoc(front, f, sel);
  }

  lemma FrontNext(recv: seq<Flight>, book: seq<seq<Flight>>, j: nat)
    requires j < |book|
    ensures B.Front(recv, book, j + 1) == B.Front(recv, book, j) + book[j]
  {
  }

  lemma RelayAnswers(w: World, n: Net)
    requires Steady(w, n) && AtStage(w, n, Replying) && |n.relays| > 1
    ensures var n' := DeliverCreated(w, n);
            Steady(w, n') && AtStage(w, n', Finishing)
  {
    hide RecognizedPayload, ToPayload, FromPayload, Blank, Layers, Hist, StampDigest, F.HopInv, F.CellInv, B.CellInv,
         B.CountInv, B.DigestInv, Talk, ExtendsInFlight, ExtendedsInFlight, BuildExtended2, DeliverCreated, Word, Picks,
         ClientHandshakeFinish, HopFromNtor, Genuine, F.Inv, B.Inv, OwnFlight, AllAddressed;
    SteadyShape(w, n);
    var n' := DeliverCreated(w, n);
    var o := |n.relays| - 2;
    var reply := n.created.value;
    var rc := RelayCell(Extended2, 0, 0, 0, BuildExtended2(reply));
    ReplyFrame(w, n);
    assert Links(n') by {
      SteadyLinks(w, n);
      SameLinks(n, n');
    }
    EmittedSteady(w, n, n', o, rc);
    var f := OwnFlight(w, n, o, rc);
    EmittedOnly(n, n', o, f);
    DownView(n, n');
    assert f.span == |n.client.hops| by {
      OwnSpan(w, n, o, rc);
    }
    assert Answer(w, n', n'.client.pending.value, reply);
  }

  lemma OwnSpan(w: World, n: Net, o: nat, rc: RelayCell)
    requires o < |n.relays|
    ensures OwnFlight(w, n, o, rc).span == o + 1
  {
  }

  /** The reply to CREATE makes the guard the first hop, or goes back as EXTENDED2. */
  lemma CreatedArrivesGood(w: World, n: Net)
    requires Good(w, n) && n.created.Some?
    ensures Good(w, DeliverCreated(w, n))
    ensures |n.relays| == 1 ==> |DeliverCreated(w, n).client.hops| == 1
  {
    hide Steady, DeliverCreated, ExtendsInFlight, ExtendedsInFlight, Answer, Genuine, Word;
    SteadyShape(w, n);
    var stage :| AtStage(w, n, stage);
    assert stage == Replying;
    if |n.relays| == 1 {
      GuardAnswers(w, n);
    } else {
      RelayAnswers(w, n);
    }
  }

  // ── The client receives ─────────────────────────────────────────────

  /** The flight at the head of the client's link. */
  function HeadUp(n: Net): Flight
    requires B.Shape(Bwd(n)) && 0 < |n.up| && n.up[0] != []
  {
    n.log.bbook[0][0]
  }

  /** `decrypt_inbound` is the pipe's receipt: the client names the relay that sent the cell and reads
      what it sent. */
  lemma DecryptIsReceive(w: World, n: Net, now: Instant)
    requires Steady(w, n) && 0 < |n.up| && n.up[0] != [] && B.NotMistaken(w.s, Bwd(n))
    ensures var f := HeadUp(n);
            var p' := B.Receive(w.s, Bwd(n)).0;
            var (o', found) := DecryptInbound(w.s, n.client, n.up[0][0], now);
            && 0 < f.span <= |n.client.hops| && f.addressed && FromPayload(f.plain).Some?
            && found == Some((FromHop(f.span - 1), FromPayload(f.plain).value))
            && o' == n.client.(hops := o'.hops, lastActivity := now)
            && Backwards(o'.hops) == p'.receiver && Forwards(o'.hops) == Forwards(n.client.hops)
            && p'.relays == RelayBackwards(n.relays) && p'.seeds == n.log.bseeds
            && p'.wires == n.up[0 := n.up[0][1..]]
            && p'.book == n.log.bbook[0 := n.log.bbook[0][1..]]
            && p'.recv == n.log.recv + [f]
  {
    var p := Bwd(n);
    B.ReceiveOutcome(w.s, p);
    B.HeadIsNext(w.s, p);
    assert n.log.bbook[0][0].addressed;
    hide FromPayload, Layers, Hist, Filter, Blank, Layer, Peel;
  }

  /** The state after the cell is off the link and out of `decrypt_inbound`, before its command is
      looked at. */
  function Received(w: World, n: Net, now: Instant): Net
    requires B.Shape(Bwd(n)) && 0 < |n.up| && n.up[0] != []
  {
    var f := HeadUp(n);
    n.(client := DecryptInbound(w.s, n.client, n.up[0][0], now).0, up := n.up[0 := n.up[0][1..]],
       heardUp := PushAt(n.heardUp, if f.span > 0 then f.span - 1 else 0, Word(f)),
       log := WithBwd(n.log, B.Receive(w.s, Bwd(n)).0))
  }

  lemma ReceivedTalk(n: Net, n': Net)
    requires B.Shape(Bwd(n)) && 0 < |n.up| && n.up[0] != [] && Talk(n)
    requires var f := HeadUp(n);
             && f.span > 0 && f.addressed
             && n'.log == n.log.(recv := n.log.recv + [f], bbook := n.log.bbook[0 := n.log.bbook[0][1..]])
             && n'.heardUp == PushAt(n.heardUp, f.span - 1, Word(f))
    requires |n'.relays| == |n.relays|
    requires n'.told == n.told && n'.heard == n.heard && n'.toldUp == n.toldUp
    ensures Talk(n')
  {
    hide Word, FromPayload;
    var f := HeadUp(n);
    forall i | 0 <= i < |n'.told|
      ensures TalkAt(n', i)
    {
      assert TalkAt(n, i);
      var front := B.Front(n.log.recv, n.log.bbook, i + 1);
      B.FrontReceive(n.log.recv, n.log.bbook, i + 1);
      assert front + [] == front;
      B.FilterSnoc(n.log.recv, f, To(i));
      var mine := Filter(n.log.recv, To(i));
      if i == f.span - 1 {
        WordsSnoc(mine, f);
      } else {
        assert mine + [] == mine;
      }
    }
  }

  lemma {:induction false} FrontSplit(recv: seq<Flight>, book: seq<seq<Flight>>, j: nat)
    requires j <= |book|
    ensures B.Front(recv, book, j) == recv + B.Front([], book, j)
  {
    if j > 0 {
      FrontSplit(recv, book, j - 1);
    }
  }

  lemma ReceivedView(n: Net, n': Net)
    requires B.Shape(Bwd(n)) && 0 < |n.up| && n.up[0] != []
    requires n'.log.bbook == n.log.bbook[0 := n.log.bbook[0][1..]]
    ensures ExtendedsInFlight(n)
         == (if Picks(Commanding(Extended2), HeadUp(n)) then [HeadUp(n)] else []) + ExtendedsInFlight(n')
  {
    hide FromPayload, Picks;
    var f, m := HeadUp(n), |n.log.bbook|;
    B.FrontReceive([], n.log.bbook, m);
    assert [] + [f] == [f];
    FrontSplit([f], n'.log.bbook, m);
    assert UpInFlight(n) + [] == UpInFlight(n);
    FilterConcat([f], UpInFlight(n'), Commanding(Extended2));
    FilterOne(f, Commanding(Extended2));
  }

  lemma ReceivedSteady(w: World, n: Net, now: Instant)
    requires Steady(w, n) && 0 < |n.up| && n.up[0] != [] && B.NotMistaken(w.s, Bwd(n))
    ensures var n' := Received(w, n, now);
            && Steady(w, n')
            && n'.log.bbook == n.log.bbook[0 := n.log.bbook[0][1..]]
            && n'.client.pending == n.client.pending && |n'.client.hops| == |n.client.hops|
  {
    hide FromPayload, Layers, Hist, Filter, Blank, Layer, Peel, DecryptInbound, Word, F.HopInv, F.CellInv, B.CellInv,
         B.CountInv, B.DigestInv, TalkAt, B.Receive;
    var n' := Received(w, n, now);
    DecryptIsReceive(w, n, now);
    B.ReceivePreserves(w.s, Bwd(n));
    assert Bwd(n') == B.Receive(w.s, Bwd(n)).0;
    assert Fwd(n') == Fwd(n);
    ReceivedTalk(n, n');
    assert AllAddressed(n'.log);
  }

  /** Any cell but an EXTENDED2 is just handed on. */
  lemma ReceivesOther(w: World, n: Net, now: Instant, stage: Stage)
    requires Steady(w, n) && AtStage(w, n, stage)
    requires 0 < |n.up| && n.up[0] != [] && B.NotMistaken(w.s, Bwd(n))
    requires !Picks(Commanding(Extended2), HeadUp(n))
    ensures var n' := ReceiveAtClient(w, n, now);
            n' == Received(w, n, now) && Steady(w, n') && AtStage(w, n', stage)
  {
    SteadyShape(w, n);
    hide Steady, Received, ReceiveAtClient, ExtendsInFlight, ExtendedsInFlight, AtStage, Picks, B.NotMistaken, F.Shape, B.Shape,
         SameStage, HeadUp;
    ReceivedSteady(w, n, now);
    ReceivedPlainly(w, n, now);
    ReceivedSame(w, n, now);
    StageKept(w, n, Received(w, n, now), stage);
  }

  lemma ReceivedSame(w: World, n: Net, now: Instant)
    requires B.Shape(Bwd(n)) && 0 < |n.up| && n.up[0] != [] && !Picks(Commanding(Extended2), HeadUp(n))
    requires var n' := Received(w, n, now);
             && n'.log.bbook == n.log.bbook[0 := n.log.bbook[0][1..]]
             && n'.client.pending == n.client.pending && |n'.client.hops| == |n.client.hops|
    ensures SameStage(n, Received(w, n, now))
  {
    hide Received, ExtendsInFlight, ExtendedsInFlight, Picks, B.Shape;
    var n' := Received(w, n, now);
    ReceivedFrame(w, n, now);
    ReceivedView(n, n');
    DownView(n, n');
    assert [] + ExtendedsInFlight(n') == ExtendedsInFlight(n');
  }

  /** `handle_origin_relay` hands on what `decrypt_inbound` found. */
  lemma ReceivedPlainly(w: World, n: Net, now: Instant)
    requires B.Shape(Bwd(n)) && Steady(w, n) && 0 < |n.up| && n.up[0] != [] && B.NotMistaken(w.s, Bwd(n))
    requires !Picks(Commanding(Extended2), HeadUp(n))
    ensures ReceiveAtClient(w, n, now) == Received(w, n, now)
  {
    hide Steady, FromPayload, Layers, Filter, Peel, DecryptInbound, Word, B.NotMistaken, B.Receive, Picks, F.Shape, B.Shape;
    DecryptIsReceive(w, n, now);
    HeadWord(HeadUp(n), Extended2);
  }

  /** An EXTENDED2 reaches the client only when it is awaited. */
  lemma ReplyIsAwaited(w: World, n: Net, stage: Stage) returns (reply: ServerMsg)
    requires B.Shape(Bwd(n)) && 0 < |n.up| && n.up[0] != []
    requires AtStage(w, n, stage) && Picks(Commanding(Extended2), HeadUp(n))
    ensures Awaited(w, n, reply)
    ensures n.create.None? && n.created.None? && LastIsOpen(n) && ExtendsInFlight(n) == []
  {
    hide FromPayload, Filter, Word, Picks, Answer, Genuine, ExtendsInFlight, UpInFlight, BuildExtended2;
    var n' := n.(log := n.log.(bbook := n.log.bbook[0 := n.log.bbook[0][1..]]));
    ReceivedView(n, n');
    assert |ExtendedsInFlight(n)| > 0;
    assert stage == Finishing;
    assert ExtendedsInFlight(n) == [HeadUp(n)];
    reply :| Word(ExtendedsInFlight(n)[0]).data == BuildExtended2(reply) && Answer(w, n, n.client.pending.value, reply);
  }

  /** `handle_origin_relay` on an EXTENDED2 is `handle_created` on the reply inside. */
  lemma OriginFinishes(w: World, o: Origin, p: Payload, now: Instant, o1: Origin, from: Source, rc: RelayCell, reply: ServerMsg)
    requires DecryptInbound(w.s, o, p, now) == (o1, Some((from, rc)))
    requires rc.command == Extended2 && rc.data == BuildExtended2(reply)
    ensures OriginRelay(w.s, w.d, w.l, o, p, now).0 == OriginCreated(w.d, w.l, o1, reply).0
  {
    hide DecryptInbound, BuildExtended2, ParseExtended2, OriginCreated;
    Extended2RoundTrip(reply);
  }

  /** What the handshake at the end of an EXTENDED2's way finds. */
  ghost predicate Awaited(w: World, n: Net, reply: ServerMsg)
    requires B.Shape(Bwd(n)) && 0 < |n.up| && n.up[0] != []
  {
    && Picks(Commanding(Extended2), HeadUp(n)) && ExtendedsInFlight(n) == [HeadUp(n)]
    && n.client.pending.Some? && |n.relays| == |n.client.hops| + 1
    && |n.path| == |n.relays| && n.asked == Peers(n.path)
    && Word(HeadUp(n)).data == BuildExtended2(reply) && Answer(w, n, n.client.pending.value, reply)
  }

  /** The client reads the very reply the node sent. */
  lemma ReplyRead(w: World, n: Net, now: Instant, reply: ServerMsg)
    requires Steady(w, n) && 0 < |n.up| && n.up[0] != [] && B.NotMistaken(w.s, Bwd(n))
    requires Awaited(w, n, reply)
    ensures var n1 := Received(w, n, now);
            ReceiveAtClient(w, n, now) == n1.(client := OriginCreated(w.d, w.l, n1.client, reply).0)
  {
    hide FromPayload, Layers, Filter, Peel, DecryptInbound, Word, B.NotMistaken, F.Inv, B.Inv, Talk,
         B.Receive, ExtendsInFlight, ExtendedsInFlight, Answer, BuildExtended2, OriginCreated, OriginRelay, Picks;
    SteadyShape(w, n);
    var f := HeadUp(n);
    DecryptIsReceive(w, n, now);
    HeadWord(f, Extended2);
    var (o1, found) := DecryptInbound(w.s, n.client, n.up[0][0], now);
    OriginFinishes(w, n.client, n.up[0][0], now, o1, found.value.0, found.value.1, reply);
  }

  lemma ReceivedAnswer(w: World, n: Net, n1: Net, reply: ServerMsg)
    requires n.client.pending.Some? && Answer(w, n, n.client.pending.value, reply)
    requires n1.client.pending == n.client.pending && |n1.client.hops| == |n.client.hops|
    requires n1.relays == n.relays && n1.log.gone == n.log.gone && n1.log.fseeds == n.log.fseeds && n1.log.bseeds == n.log.bseeds
    ensures Answer(w, n1, n1.client.pending.value, reply)
  {
    hide ClientHandshakeFinish, HopFromNtor;
  }

  lemma ReceivedFrame(w: World, n: Net, now: Instant)
    requires B.Shape(Bwd(n)) && 0 < |n.up| && n.up[0] != []
    ensures var n1 := Received(w, n, now);
            && n1.home == n.home && n1.path == n.path && n1.asked == n.asked
            && n1.relays == n.relays && n1.create == n.create && n1.created == n.created
            && n1.log.fbook == n.log.fbook && n1.log.gone == n.log.gone && n1.log.fseeds == n.log.fseeds
            && n1.log.bseeds == n.log.bseeds
  {
    hide DecryptInbound, Peel, Word;
  }

  lemma AwaitedParts(w: World, n: Net, reply: ServerMsg)
    requires B.Shape(Bwd(n)) && 0 < |n.up| && n.up[0] != [] && Awaited(w, n, reply)
    ensures Picks(Commanding(Extended2), HeadUp(n)) && ExtendedsInFlight(n) == [HeadUp(n)]
    ensures n.client.pending.Some? && |n.relays| == |n.client.hops| + 1 && Answer(w, n, n.client.pending.value, reply)
    ensures |n.path| == |n.relays| && n.asked == Peers(n.path)
  {
    hide Picks, ExtendedsInFlight, Answer, Word;
  }

  lemma ReceivesExtended(w: World, n: Net, now: Instant, reply: ServerMsg)
    requires B.Shape(Bwd(n)) && Steady(w, n) && 0 < |n.up| && n.up[0] != [] && B.NotMistaken(w.s, Bwd(n))
    requires Awaited(w, n, reply)
    requires n.create.None? && n.created.None? && LastIsOpen(n) && ExtendsInFlight(n) == []
    ensures var n' := ReceiveAtClient(w, n, now);
            Steady(w, n') && AtStage(w, n', Idle) && |n'.client.hops| == |n.client.hops| + 1
  {
    hide Word, Steady, Received, ExtendsInFlight, ExtendedsInFlight, BuildExtended2, OriginCreated, ReceiveAtClient,
         Picks, Answer, B.NotMistaken, F.Shape, B.Shape, Awaited;
    AwaitedParts(w, n, reply);
    var n1, n' := Received(w, n, now), ReceiveAtClient(w, n, now);
    ReceivedSteady(w, n, now);
    ReceivedFrame(w, n, now);
    ReplyRead(w, n, now, reply);
    ReceivedAnswer(w, n, n1, reply);
    HopLearned(w, n1, n', reply);
    ReceivedView(n, n');
    assert |ExtendedsInFlight(n)| == 1 + |ExtendedsInFlight(n')|;
    DownView(n, n');
  }

  lemma ClientReceivesGood(w: World, n: Net, now: Instant)
    requires B.Shape(Bwd(n)) && Good(w, n) && 0 < |n.up| && n.up[0] != [] && B.NotMistaken(w.s, Bwd(n))
    ensures Good(w, ReceiveAtClient(w, n, now))
    ensures Picks(Commanding(Extended2), HeadUp(n)) ==>
      |ReceiveAtClient(w, n, now).client.hops| == |n.client.hops| + 1
  {
    hide Steady, ReceiveAtClient, AtStage, Picks, ExtendsInFlight, ExtendedsInFlight;
    var stage :| AtStage(w, n, stage);
    if Picks(Commanding(Extended2), HeadUp(n)) {
      var reply := ReplyIsAwaited(w, n, stage);
      ReceivesExtended(w, n, now, reply);
    } else {
      ReceivesOther(w, n, now, stage);
    }
  }

  // ── Whole runs ──────────────────────────────────────────────────────

  lemma BeginGood(w: World, id: CircuitId, home: PeerId, guard: PeerId, xPriv: Key32, now: Instant)
    ensures Good(w, Begin(w, id, home, guard, xPriv, now))
  {
    var n := Begin(w, id, home, guard, xPriv, now);
    assert Peers(n.path) == [guard];
    assert Steady(w, n);
    assert AtStage(w, n, Creating);
  }

  /** `steps` takes `n` to `n'`, every step by a participant able to take it and nobody mistaking a
      cell for its own. */
  ghost predicate Run(w: World, n: Net, steps: seq<Step>, n': Net)
    decreases steps
  {
    if steps == [] then n' == n
    else
      && F.Shape(Fwd(n)) && B.Shape(Bwd(n))
      && Enabled(w, n, steps[0]) && NoMistake(w, n, steps[0])
      && Run(w, Next(w, n, steps[0]), steps[1..], n')
  }

  lemma BackwardSizes(n: Net)
    requires B.Shape(Bwd(n))
    ensures |n.client.hops| <= |n.relays| == |n.up| == |n.log.bbook|
  {
  }

  lemma StepGood(w: World, n: Net, step: Step)
    requires DhLaw(w.d) && F.Shape(Fwd(n)) && B.Shape(Bwd(n)) && Good(w, n) && Enabled(w, n, step) && NoMistake(w, n, step)
    ensures Good(w, Next(w, n, step))
  {
    hide Good, CreateAtNode, DeliverCreated, ExtendFromClient, SendFromClient, TakeAtRelay, SendFromRelay, PassBack,
         ReceiveAtClient, F.Shape, B.Shape, F.NotMistaken, B.NotMistaken;
    match step
    case NodeCreates(yPriv, now) => NodeCreatesGood(w, n, yPriv, now);
    case CreatedArrives => CreatedArrivesGood(w, n);
    case ClientExtends(next, xPriv, now) => ClientExtendsGood(w, n, next, xPriv, now);
    case ClientSends(target, rc, now) => ClientSendsGood(w, n, target, rc, now);
    case RelayTakes(j, nextCirc, now) => RelayTakesGood(w, n, j, nextCirc, now);
    case RelaySends(o, rc) =>
      BackwardSizes(n);
      RelaySendsGood(w, n, o, rc);
    case RelayPassesBack(j) => PassBackGood(w, n, j);
    case ClientReceives(now) => ClientReceivesGood(w, n, now);
  }

  lemma {:induction false} RunGood(w: World, n: Net, steps: seq<Step>, n': Net)
    requires DhLaw(w.d) && Good(w, n) && Run(w, n, steps, n')
    ensures Good(w, n')
    decreases steps
  {
    hide Good, Next, Enabled, NoMistake;
    if steps != [] {
      StepGood(w, n, steps[0]);
      RunGood(w, Next(w, n, steps[0]), steps[1..], n');
    }
  }

  /** What hop `i` and its relay agree on while cells are in flight in both directions. */
  ghost predicate HopsAgree(mine: HopState, theirs: HopState, fbook: seq<seq<Flight>>, bbook: seq<seq<Flight>>, i: nat)
    requires i < |fbook| == |bbook|
  {
    var down, up := F.Wire(fbook, i), B.Front([], bbook, i + 1);
    && mine.forward.key == theirs.forward.key && mine.backward.key == theirs.backward.key
    // counters differ by the cells in flight past the hop
    && (exists a: nat :: theirs.forward.nonce == Count(a) && mine.forward.nonce == Count(a + |Filter(down, Past(i))|))
    && (exists b: nat :: mine.backward.nonce == Count(b) && theirs.backward.nonce == Count(b + |Filter(up, Past(i))|))
    // digests differ by the cells in flight for it or from it
    && mine.forward.digest == theirs.forward.digest + Hist(Filter(down, To(i)))
    && theirs.backward.digest == mine.backward.digest + Hist(Filter(up, To(i)))
  }

  /** What the client and hop `i` agree on while cells are in flight in both directions. */
  ghost predicate LockstepAt(n: Net, i: nat)
    requires F.Shape(Fwd(n)) && B.Shape(Bwd(n)) && i < |n.client.hops|
    requires |n.told| == |n.heard| == |n.toldUp| == |n.heardUp| == |n.relays|
  {
    && HopsAgree(n.client.hops[i], n.relays[i].hop, n.log.fbook, n.log.bbook, i)
    // what comes out is what was put in, in order, and the rest is in flight
    && n.told[i] == n.heard[i] + Words(Filter(F.Wire(n.log.fbook, i), To(i)))
    && n.toldUp[i] == n.heardUp[i] + Words(Filter(B.Front([], n.log.bbook, i + 1), To(i)))
  }

  lemma {:induction false} HistConcat(a: seq<Flight>, b: seq<Flight>)
    ensures Hist(a + b) == Hist(a) + Hist(b)
    decreases |b|
  {
    hide Blank;
    if b == [] {
      assert a + b == a;
    } else {
      var b0, last := b[..|b| - 1], b[|b| - 1];
      assert b == b0 + [last];
      assert a + b == (a + b0) + [last];
      HistConcat(a, b0);
      HistSnoc(a + b0, last);
      HistSnoc(b0, last);
      assert (Hist(a) + Hist(b0)) + Blank(last.plain) == Hist(a) + (Hist(b0) + Blank(last.plain));
    }
  }

  lemma WordsConcat(a: seq<Flight>, b: seq<Flight>)
    ensures Words(a + b) == Words(a) + Words(b)
  {
    hide Word;
  }

  lemma ForwardLockstep(s: Suite, p: F.Pipe, i: nat)
    requires F.Shape(p) && i < |p.sender| && F.HopInv(s, p, i)
    ensures p.sender[i].key == p.relays[i].key
    ensures p.relays[i].nonce == Count(|p.gone[i]|) && p.sender[i].nonce == Count(|p.gone[i]| + |F.InFlight(p, i)|)
    ensures Filter(p.sent, To(i)) == Filter(p.gone[i], To(i)) + Filter(F.Wire(p.book, i), To(i))
    ensures p.sender[i].digest == p.relays[i].digest + Hist(Filter(F.Wire(p.book, i), To(i)))
  {
    hide Blank, Hist, F.Wire;
    FilterToOfPast(p.sent, i);
    FilterToOfPast(F.Wire(p.book, i), i);
    FilterConcat(p.gone[i], F.InFlight(p, i), To(i));
    var gone, left := Filter(p.gone[i], To(i)), Filter(F.Wire(p.book, i), To(i));
    HistConcat(gone, left);
    assert (p.seeds[i] + Hist(gone)) + Hist(left) == p.seeds[i] + (Hist(gone) + Hist(left));
  }

  lemma BackwardLockstep(s: Suite, p: B.Pipe, i: nat)
    requires B.Shape(p) && i < |p.receiver| && B.CountInv(p, i) && B.DigestInv(s, p, i)
    ensures var up := B.Front([], p.book, i + 1);
            var b := |Filter(p.recv, Past(i))|;
            && p.receiver[i].key == p.relays[i].key
            && p.receiver[i].nonce == Count(b) && p.relays[i].nonce == Count(b + |Filter(up, Past(i))|)
            && Filter(B.Front(p.recv, p.book, i + 1), To(i)) == Filter(p.recv, To(i)) + Filter(up, To(i))
            && p.relays[i].digest == p.receiver[i].digest + Hist(Filter(up, To(i)))
  {
    hide Blank, Hist, B.Front;
    var up := B.Front([], p.book, i + 1);
    FrontSplit(p.recv, p.book, i + 1);
    FilterConcat(p.recv, up, Past(i));
    FilterConcat(p.recv, up, To(i));
    var got, left := Filter(p.recv, To(i)), Filter(up, To(i));
    HistConcat(got, left);
    assert (p.seeds[i] + Hist(got)) + Hist(left) == p.seeds[i] + (Hist(got) + Hist(left));
  }

  lemma GoodLockstep(w: World, n: Net, i: nat)
    requires Good(w, n) && i < |n.client.hops|
    ensures LockstepAt(n, i)
  {
    hide AtStage, Word, Words, Hist, Filter, F.Wire, B.Front, F.CellInv, B.CellInv;
    var p, q := Fwd(n), Bwd(n);
    assert F.HopInv(w.s, p, i) && B.CountInv(q, i) && B.DigestInv(w.s, q, i);
    ForwardLockstep(w.s, p, i);
    BackwardLockstep(w.s, q, i);
    assert TalkAt(n, i);
    WordsConcat(Filter(n.log.gone[i], To(i)), Filter(F.Wire(n.log.fbook, i), To(i)));
    WordsConcat(Filter(n.log.recv, To(i)), Filter(B.Front([], n.log.bbook, i + 1), To(i)));
  }

  /** Only a relay the client knows has ever been spoken to, so one that answers when spoken to may answer. */
  lemma SpokenToIsKnown(w: World, n: Net, o: nat)
    requires Good(w, n) && o < |n.relays| == |n.heard| && n.heard[o] != []
    ensures o < |n.client.hops|
  {
    hide ExtendsInFlight, ExtendedsInFlight, Word, ClientHandshakeFinish, BuildExtend2, BuildExtended2, F.HopInv, F.CellInv,
         B.CellInv, B.CountInv, B.DigestInv;
    var stage :| AtStage(w, n, stage);
    assert TalkAt(n, o);
    assert Filter([], To(o)) == [];
  }

  /** The nodes on the path are those the client asked for. */
  lemma PathIsAsked(w: World, n: Net)
    requires Good(w, n)
    ensures |n.relays| <= |n.path| <= |n.asked| == |n.client.hops| + (if n.client.pending.Some? then 1 else 0)
    ensures forall i :: 0 <= i < |n.path| ==> n.path[i].peer == n.asked[i]
  {
    hide Steady, ExtendsInFlight, ExtendedsInFlight, Word, ClientHandshakeFinish, BuildExtend2, BuildExtended2, Answer;
    var stage :| AtStage(w, n, stage);
  }

  /** Circuit construction and use. In every honest run from `start_circuit`, whatever interleaving of
      handshakes and cells: hop `i` of the client and relay `i` hold the same keys, counters and
      digests up to exactly the cells in flight between them, every cell heard was told, in order, and
      the RELAY_EARLY budget is kept, so a path never exceeds six hops. */
  lemma Construction(
    w: World, id: CircuitId, home: PeerId, guard: PeerId, xPriv: Key32, now: Instant, steps: seq<Step>, n: Net)
    requires DhLaw(w.d) && Run(w, Begin(w, id, home, guard, xPriv, now), steps, n)
    ensures |n.client.hops| <= |n.relays| && |n.told| == |n.heard| == |n.toldUp| == |n.heardUp| == |n.relays|
    ensures F.Shape(Fwd(n)) && B.Shape(Bwd(n))
    ensures forall i :: 0 <= i < |n.client.hops| ==> LockstepAt(n, i)
    ensures |n.client.hops| + (if n.client.pending.Some? then 1 else 0) <= 1 + n.client.relayEarlyUsed
    ensures n.client.relayEarlyUsed <= MAX_RELAY_EARLY && |n.client.hops| <= 6
    ensures |n.relays| <= |n.path| <= |n.asked| && forall i :: 0 <= i < |n.path| ==> n.path[i].peer == n.asked[i]
  {
    hide AtStage, LockstepAt, F.CellInv, B.CellInv, F.HopInv, B.CountInv, B.DigestInv, TalkAt, Run, Begin;
    BeginGood(w, id, home, guard, xPriv, now);
    RunGood(w, Begin(w, id, home, guard, xPriv, now), steps, n);
    PathIsAsked(w, n);
    forall i | 0 <= i < |n.client.hops|
      ensures LockstepAt(n, i)
    {
      GoodLockstep(w, n, i);
    }
  }
}

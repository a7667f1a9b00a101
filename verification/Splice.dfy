/** Two built circuits being joined at a rendezvous point: a client's and a hidden service's. Each end puts on
    its end-to-end layer (`phinet-core/src/circuit_mgr.rs:206-292`), and the rendezvous point bridges the two,
    each in its own time, with cells in flight and more being sent; from then on the bridge of
    `handle_forward_relay` carries what one circuit lets out into the other. */
module Splice {
  import opened Wrappers
  import opened Bytes
  import opened Circuit
  import opened Ntor
  import opened Flow
  import opened CircuitState
  import R = CircuitRun
  import P = CircuitProgress
  import F = ForwardPipe
  import B = BackwardPipe

  /** One of the two circuits, its last relay being the rendezvous point. */
  datatype Line = Line(
    origin: Origin, relays: seq<RelayCircuit>, down: seq<seq<Payload>>, up: seq<seq<Payload>>, log: R.Log)

  function Fwd(l: Line): F.Pipe {
    F.Pipe(Forwards(l.origin.hops), R.RelayForwards(l.relays), l.down, l.log.fbook, l.log.sent, l.log.gone, l.log.fseeds)
  }

  function Bwd(l: Line): B.Pipe {
    B.Pipe(Backwards(l.origin.hops), R.RelayBackwards(l.relays), l.up, l.log.bbook, l.log.recv, l.log.bseeds)
  }

  /** Both circuits. `layers[x]` is what end `x` gets out of the rendezvous handshake, and puts on once.
      `said[x]` is what end `x` was asked to send with its layer on, `heard[x]` what came out of it at end `x`;
      `inner[x]` records the payloads end `x` stamped for the far end. `lost[x]` says whether a cell of end `x`
      has met no bridge, or nobody at the far end to take it. */
  datatype Joined = Joined(
    lines: seq<Line>, layers: seq<HopState>, bridged: bool,
    said: seq<seq<RelayCell>>, heard: seq<seq<RelayCell>>, inner: seq<seq<Flight>>, lost: seq<bool>)

  predicate Sound(j: Joined) {
    |j.lines| == |j.layers| == |j.said| == |j.heard| == |j.inner| == |j.lost| == 2
  }

  /** The two halves of an end's layer, once it is on. */
  function Out(l: Line): Option<Half> {
    if l.origin.e2e.Some? then Some(l.origin.e2e.value.forward) else None
  }

  function Into(l: Line): Option<Half> {
    if l.origin.e2e.Some? then Some(l.origin.e2e.value.backward) else None
  }

  /** A line whose circuit is complete, and whose last relay leads nowhere but over the bridge. */
  predicate Whole(l: Line) {
    && F.Shape(Fwd(l)) && B.Shape(Bwd(l))
    && 0 < |l.origin.hops| == |l.relays|
    && (forall i :: 0 <= i < |l.relays| ==> l.relays[i].Next().Some? == (i + 1 < |l.relays|))
  }

  // ── Steps ───────────────────────────────────────────────────────────

  datatype Step =
    | EndSends(x: nat, target: nat, rc: RelayCell, now: Instant)
    | RelayTakes(x: nat, i: nat, now: Instant)
    | RelaySends(x: nat, i: nat, rc: RelayCell)
    | RelayPassesBack(x: nat, i: nat)
    | EndReceives(x: nat, now: Instant)
    | Installs(x: nat, layer: HopState)
    | Bridges(x: nat)

  /** Without its layer an end talks to any of its hops; with it, to the far end, by way of the last. */
  predicate Sendable(l: Line, target: nat) {
    target < |l.origin.hops| && (l.origin.e2e.Some? ==> target + 1 == |l.origin.hops|)
  }

  predicate Enabled(j: Joined, step: Step) {
    && Sound(j) && step.x < 2 && Whole(j.lines[0]) && Whole(j.lines[1])
    && var l := j.lines[step.x];
    match step
    case EndSends(_, target, rc, _) =>
      Sendable(l, target) && rc.recognized == 0 && rc.digest == 0 && (l.origin.e2e.None? ==> rc.command != Extend2)
    case RelayTakes(_, i, _) => i < |l.down| && l.down[i] != []
    case RelaySends(_, i, rc) => i < |l.relays| && rc.recognized == 0 && rc.digest == 0
    case RelayPassesBack(_, i) => i + 1 < |l.up| && l.up[i + 1] != []
    case EndReceives(_, _) => l.up[0] != []
    case Installs(x, layer) => l.origin.e2e.None? && layer == j.layers[x]
    case Bridges(_) => !j.bridged
  }

  /** The payload an end stamps for the far end, and the same under the end-to-end layer. */
  function Stamped(s: Suite, l: Line, rc: RelayCell): Payload
    requires l.origin.e2e.Some?
  {
    ToPayload(StampDigest(s, rc, l.origin.e2e.value.forward.digest).0)
  }

  function Inside(s: Suite, l: Line, rc: RelayCell): Payload
    requires l.origin.e2e.Some?
  {
    var out := l.origin.e2e.value.forward;
    Layer(s, out.key, out.nonce, Stamped(s, l, rc))
  }

  /** `encrypt_outbound`. */
  function LineSends(s: Suite, l: Line, target: nat, rc: RelayCell, now: Instant): Line
    requires Whole(l) && Sendable(l, target)
  {
    var (o, p) := EncryptOutbound(s, l.origin, target, rc, now);
    match p
    case Err(_) => l.(origin := o)
    case Ok(cell) =>
      var pipe :=
        if l.origin.e2e.None? then F.SendTo(s, Fwd(l), target, rc)
        else F.Send(s, Fwd(l), Fwd(l).sender, |l.relays|, false, Inside(s, l, rc));
      l.(origin := o, down := l.down[0 := l.down[0] + [cell]], log := R.WithFwd(l.log, pipe))
  }

  /** `handle_forward_relay` at relay `i`, up to the bridge; what the last relay lets out comes second. */
  function LineTakes(s: Suite, l: Line, i: nat, now: Instant): (Line, Option<Payload>)
    requires Whole(l) && i < |l.down| && l.down[i] != []
  {
    var (r, q, mine) := RelayPeel(s, l.relays[i], l.down[i][0], now);
    var l1 := l.(relays := l.relays[i := r], down := l.down[i := l.down[i][1..]],
                 log := R.WithFwd(l.log, F.RelayStep(s, Fwd(l), i).0));
    if mine.Some? then (l1, None)
    else if r.Next().Some? && i + 1 < |l.relays| then
      (l1.(down := l1.down[i + 1 := l1.down[i + 1] + [q]]), None)
    else (l1, Some(q))
  }

  /** The other half of the bridge: the partner circuit's last relay adds its backward layer. */
  function LineCarries(s: Suite, l: Line, q: Payload, now: Instant): Line
    requires Whole(l)
  {
    var o := |l.relays| - 1;
    var (r, q') := RelayBackward(s, l.relays[o], q);
    l.(relays := l.relays[o := r.(lastActivity := now)], up := l.up[o := l.up[o] + [q']],
       log := R.WithBwd(l.log, B.Emit(s, Bwd(l), Bwd(l).relays, o, false, q)))
  }

  function LineRelaySends(s: Suite, l: Line, i: nat, rc: RelayCell): Line
    requires Whole(l) && i < |l.relays|
  {
    var r := l.relays[i];
    var (rc', digest') := StampDigest(s, rc, r.hop.backward.digest);
    var (hop, p) := OnionBackward(s, r.hop.(backward := r.hop.backward.(digest := digest')), ToPayload(rc'));
    l.(relays := l.relays[i := r.(hop := hop)], up := l.up[i := l.up[i] + [p]],
       log := R.WithBwd(l.log, B.EmitOwn(s, Bwd(l), i, rc)))
  }

  /** `handle_backward_relay`. */
  function LinePassesBack(s: Suite, l: Line, i: nat): Line
    requires Whole(l) && i + 1 < |l.up| && l.up[i + 1] != []
  {
    var (r, q) := RelayBackward(s, l.relays[i], l.up[i + 1][0]);
    l.(relays := l.relays[i := r], up := l.up[i + 1 := l.up[i + 1][1..]][i := l.up[i] + [q]],
       log := R.WithBwd(l.log, B.RelayWrap(s, Bwd(l), i)))
  }

  /** `decrypt_inbound`; a cell from the far end comes second. */
  function LineReceives(s: Suite, l: Line, now: Instant): (Line, Option<RelayCell>)
    requires Whole(l) && l.up[0] != []
  {
    var (o, found) := DecryptInbound(s, l.origin, l.up[0][0], now);
    (l.(origin := o, up := l.up[0 := l.up[0][1..]], log := R.WithBwd(l.log, B.Receive(s, Bwd(l)).0)),
     if found.Some? && found.value.0.FromFarEnd? then Some(found.value.1.(digest := 0)) else None)
  }

  /** Neither a hop of its own nor its end-to-end layer takes the next cell to arrive. */
  predicate Unclaimed(s: Suite, l: Line, now: Instant)
    requires Whole(l) && l.up[0] != []
  {
    DecryptInbound(s, l.origin, l.up[0][0], now).1.None?
  }

  function LineInstalls(l: Line, layer: HopState): Line {
    l.(origin := l.origin.(e2e := Some(layer)))
  }

  function Next(s: Suite, j: Joined, step: Step): Joined
    requires Enabled(j, step)
  {
    var x := step.x;
    var l, other := j.lines[x], j.lines[1 - x];
    match step
    case EndSends(_, target, rc, now) =>
      var j1 := j.(lines := j.lines[x := LineSends(s, l, target, rc, now)]);
      if l.origin.e2e.None? then j1
      else
        j1.(said := j.said[x := j.said[x] + [rc]],
            inner := j.inner[x := j.inner[x] + [Flight(1, true, [], Stamped(s, l, rc))]])
    case RelayTakes(_, i, now) =>
      var (l', out) := LineTakes(s, l, i, now);
      var j1 := j.(lines := j.lines[x := l']);
      if out.None? then j1
      else if j.bridged then j1.(lines := j1.lines[1 - x := LineCarries(s, other, out.value, now)])
      else j1.(lost := j.lost[x := true])
    case RelaySends(_, i, rc) => j.(lines := j.lines[x := LineRelaySends(s, l, i, rc)])
    case RelayPassesBack(_, i) => j.(lines := j.lines[x := LinePassesBack(s, l, i)])
    case EndReceives(_, now) =>
      var (l', got) := LineReceives(s, l, now);
      j.(lines := j.lines[x := l'], heard := if got.None? then j.heard else j.heard[x := j.heard[x] + [got.value]],
         lost := if Unclaimed(s, l, now) then j.lost[1 - x := true] else j.lost)
    case Installs(_, layer) => j.(lines := j.lines[x := LineInstalls(l, layer)])
    case Bridges(_) => j.(bridged := true)
  }

  /** The explicit hypothesis: nobody takes a cell that is not meant for him, or under the wrong counter, for
      his own. That the far end recognizes what it should is proved, not assumed. */
  ghost predicate NoMistake(s: Suite, j: Joined, step: Step)
    requires Enabled(j, step)
  {
    match step
    case RelayTakes(x, i, _) => F.NotMistaken(s, Fwd(j.lines[x]), i)
    case EndReceives(x, now) =>
      B.NotMistaken(s, Bwd(j.lines[x])) && (j.lost[1 - x] ==> LineReceives(s, j.lines[x], now).1.None?)
    case _ => true
  }

  /** The bridge is what `handle_forward_relay` does at the rendezvous point: the manager updates both
      circuits as `LineTakes` and `LineCarries` do, and sends the cell down the partner's link. */
  lemma BridgeIsHandler(s: Suite, m: Mgr, a: Leg, b: Leg, cell: Cell, now: Instant)
    requires a in m.relays && b in m.relays && a != b && m.relays[a].Next().None?
    requires a in m.rendezvousBridges && m.rendezvousBridges[a] == b
    ensures var (ra, q, mine) := RelayPeel(s, m.relays[a], cell.payload, now);
            var (rb, q') := RelayBackward(s, m.relays[b], q);
            var (m', action) := MgrForward(s, m, a, cell, now);
            if mine.Some? then m' == m.(relays := m.relays[a := ra]) && action == Handle(mine.value)
            else
              && m' == m.(relays := m.relays[a := ra][b := rb.(lastActivity := now)])
              && action == Forward(rb.prevPeer, Cell(rb.prevCircId, cell.command, q'))
  {
    hide RecognizedPayload, FromPayload, Blank, Layer;
  }

  // ── One direction, end to end ───────────────────────────────────────

  function Plains(fs: seq<Flight>): (r: seq<Payload>)
    ensures |r| == |fs|
  {
    seq(|fs|, i requires 0 <= i < |fs| => fs[i].plain)
  }

  /** The `k`-th cell sent over `f` wears the end-to-end layer made with counter `k` around `inner[k]`. */
  predicate Sealed(s: Suite, key: Key32, cells: seq<Flight>, inner: seq<Flight>) {
    && |cells| == |inner|
    && forall k :: 0 <= k < |inner| ==> cells[k].plain == Layer(s, key, Count(k), inner[k].plain)
  }

  /** The sending end's layer after everything in `inner`, and the receiving end's after a part of it. */
  function After(key: Key32, seed: bytes, inner: seq<Flight>): Half {
    Half(key, Count(|inner|), seed + Hist(inner))
  }

  /** An end that has no layer yet has nothing in it either. */
  predicate Fits(h: Option<Half>, key: Key32, seed: bytes, inner: seq<Flight>) {
    if h.None? then inner == [] else h.value == After(key, seed, inner)
  }

  /** What one end says, on its way over both circuits to the other. */
  ghost predicate Channel(
    s: Suite, bridged: bool, f: F.Pipe, b: B.Pipe, out: Option<Half>, into: Option<Half>, key: Key32, seed: bytes,
    said: seq<RelayCell>, heard: seq<RelayCell>, inner: seq<Flight>)
  {
    && F.Shape(f) && B.Shape(b)
    && 0 < |f.sender| == |f.relays| && 0 < |b.receiver| == |b.relays|
    && (forall g :: g in f.sent && !g.addressed ==> g.span == |f.relays|)
    && Sealed(s, key, Filter(f.sent, EndToEnd), inner)
    && StampedInTurn(s, seed, inner)
    && said == R.Words(inner)
    && Plains(F.Left(f)) == Plains(B.Entered(b))
    && (!bridged ==> F.Left(f) == [])
    && Fits(out, key, seed, inner)
    && var n := |Filter(b.recv, EndToEnd)|;
    && n <= |inner| && Fits(into, key, seed, inner[..n]) && heard == said[..n]
  }

  lemma PlainsSnoc(fs: seq<Flight>, f: Flight)
    ensures Plains(fs + [f]) == Plains(fs) + [f.plain]
  {
  }

  /** Sending. */
  lemma ChannelSends(
    s: Suite, bridged: bool, f: F.Pipe, b: B.Pipe, out: Option<Half>, into: Option<Half>, key: Key32, seed: bytes,
    said: seq<RelayCell>, heard: seq<RelayCell>, inner: seq<Flight>, f': F.Pipe, rc: RelayCell, g: Flight, cell: Flight)
    requires Channel(s, bridged, f, b, out, into, key, seed, said, heard, inner)
    requires F.Shape(f') && |f'.sender| == |f.sender| && |f'.relays| == |f.relays| && f'.gone == f.gone
    requires f'.sent == f.sent + [cell] && !cell.addressed && cell.span == |f.relays|
    requires out.Some? && cell.plain == Layer(s, out.value.key, out.value.nonce, g.plain)
    requires RecognizedPayload(s, g.plain, out.value.digest) && R.Word(g) == rc
    ensures Channel(s, bridged, f', b, Some(Half(out.value.key, WrapSucc(out.value.nonce), out.value.digest + Blank(g.plain))), into, key, seed,
                    said + [rc], heard, inner + [g])
  {
    hide RecognizedPayload, Layer, R.Word, Hist, Filter, B.Entered, F.Left, StampedInTurn;
    assert F.Left(f') == F.Left(f) by {
      LeftSame(f, f');
    }
    FilterConcat(f.sent, [cell], EndToEnd);
    FilterOne(cell, EndToEnd);
    StampedSnoc(s, seed, inner, g);
    CountSucc(|inner|);
    R.WordsSnoc(inner, g);
    var n := |Filter(b.recv, EndToEnd)|;
    assert (inner + [g])[..n] == inner[..n];
    assert (said + [rc])[..n] == said[..n];
  }

  lemma LeftSame(f: F.Pipe, f': F.Pipe)
    requires F.Shape(f) && F.Shape(f') && |f'.relays| == |f.relays| > 0 && f'.gone == f.gone
    ensures F.Left(f') == F.Left(f)
  {
  }

  /** A relay on the way takes a cell that does not leave the circuit, or lets one out over the bridge. */
  lemma ChannelMoves(
    s: Suite, bridged: bool, f: F.Pipe, b: B.Pipe, out: Option<Half>, into: Option<Half>, key: Key32, seed: bytes,
    said: seq<RelayCell>, heard: seq<RelayCell>, inner: seq<Flight>, f': F.Pipe, b': B.Pipe)
    requires Channel(s, bridged, f, b, out, into, key, seed, said, heard, inner)
    requires F.Shape(f') && |f'.sender| == |f.sender| && |f'.relays| == |f.relays| && f'.sent == f.sent
    requires B.Shape(b') && |b'.receiver| == |b.receiver| && |b'.relays| == |b.relays| && b'.recv == b.recv
    requires Plains(F.Left(f')) == Plains(B.Entered(b')) && (bridged || F.Left(f') == [])
    ensures Channel(s, bridged, f', b', out, into, key, seed, said, heard, inner)
  {
    hide Layer, R.Words, Hist, Filter, B.Entered, F.Left, StampedInTurn, Plains;
  }

  /** The next end-to-end cell to arrive is the next one sent. */
  lemma NextArrival(
    s: Suite, bridged: bool, f: F.Pipe, b: B.Pipe, out: Option<Half>, into: Option<Half>, key: Key32, seed: bytes,
    said: seq<RelayCell>, heard: seq<RelayCell>, inner: seq<Flight>)
    requires Channel(s, bridged, f, b, out, into, key, seed, said, heard, inner)
    requires F.Inv(s, f) && b.wires[0] != [] && !b.book[0][0].addressed
    ensures var n := |Filter(b.recv, EndToEnd)|;
            && n < |inner|
            && (into.Some? ==>
              && Layer(s, into.value.key, into.value.nonce, b.book[0][0].plain) == inner[n].plain
              && RecognizedPayload(s, inner[n].plain, into.value.digest))
  {
    hide RecognizedPayload, Layer, R.Words, Hist, Filter, B.Entered, F.Left, F.HopInv;
    var n := |Filter(b.recv, EndToEnd)|;
    F.LeftInOrder(s, f);
    B.ReceiveEntered(s, b);
    assert Plains(F.Left(f))[n] == Plains(B.Entered(b))[n];
    assert F.Left(f)[n] == Filter(f.sent, EndToEnd)[n];
    LayerInvolution(s, key, Count(n), inner[n].plain);
  }

  /** Receiving an end-to-end cell. */
  lemma ChannelReceives(
    s: Suite, bridged: bool, f: F.Pipe, b: B.Pipe, out: Option<Half>, into: Option<Half>, key: Key32, seed: bytes,
    said: seq<RelayCell>, heard: seq<RelayCell>, inner: seq<Flight>, b': B.Pipe)
    requires Channel(s, bridged, f, b, out, into, key, seed, said, heard, inner)
    requires F.Inv(s, f) && b.wires[0] != [] && !b.book[0][0].addressed && into.Some?
    requires B.Shape(b') && |b'.receiver| == |b.receiver| && |b'.relays| == |b.relays|
    requires b'.recv == b.recv + [b.book[0][0]] && B.Entered(b') == B.Entered(b)
    ensures var n := |Filter(b.recv, EndToEnd)|;
            && n < |inner|
            && Channel(s, bridged, f, b', out,
                       Some(Half(into.value.key, WrapSucc(into.value.nonce), into.value.digest + Blank(inner[n].plain))), key, seed, said, heard + [R.Word(inner[n])], inner)
  {
    hide RecognizedPayload, Layer, R.Word, Hist, Filter, B.Entered, F.Left, F.HopInv, Blank, F.CellInv, StampedInTurn;
    var n := |Filter(b.recv, EndToEnd)|;
    NextArrival(s, bridged, f, b, out, into, key, seed, said, heard, inner);
    B.FilterSnoc(b.recv, b.book[0][0], EndToEnd);
    assert inner[..n + 1] == inner[..n] + [inner[n]];
    HistSnoc(inner[..n], inner[n]);
    CountSucc(n);
    assert said[..n + 1] == said[..n] + [said[n]];
    assert (seed + Hist(inner[..n])) + Blank(inner[n].plain) == seed + (Hist(inner[..n]) + Blank(inner[n].plain));
  }

  /** Receiving a cell from a hop of one's own circuit. */
  lemma ChannelIgnores(
    s: Suite, bridged: bool, f: F.Pipe, b: B.Pipe, out: Option<Half>, into: Option<Half>, key: Key32, seed: bytes,
    said: seq<RelayCell>, heard: seq<RelayCell>, inner: seq<Flight>, b': B.Pipe)
    requires Channel(s, bridged, f, b, out, into, key, seed, said, heard, inner)
    requires b.wires[0] != [] && b.book[0][0].addressed
    requires B.Shape(b') && |b'.receiver| == |b.receiver| && |b'.relays| == |b.relays|
    requires b'.recv == b.recv + [b.book[0][0]] && B.Entered(b') == B.Entered(b)
    ensures Channel(s, bridged, f, b', out, into, key, seed, said, heard, inner)
  {
    hide RecognizedPayload, Layer, R.Words, Hist, Filter, B.Entered, F.Left, StampedInTurn;
    B.FilterSnoc(b.recv, b.book[0][0], EndToEnd);
    assert Filter(b.recv, EndToEnd) + [] == Filter(b.recv, EndToEnd);
  }

  /** Sending an ordinary cell, to a hop of one's own circuit. */
  lemma ChannelSendsOwn(
    s: Suite, bridged: bool, f: F.Pipe, b: B.Pipe, out: Option<Half>, into: Option<Half>, key: Key32, seed: bytes,
    said: seq<RelayCell>, heard: seq<RelayCell>, inner: seq<Flight>, f': F.Pipe, cell: Flight)
    requires Channel(s, bridged, f, b, out, into, key, seed, said, heard, inner)
    requires F.Shape(f') && |f'.sender| == |f.sender| && |f'.relays| == |f.relays| && f'.gone == f.gone
    requires f'.sent == f.sent + [cell] && cell.addressed
    ensures Channel(s, bridged, f', b, out, into, key, seed, said, heard, inner)
  {
    hide RecognizedPayload, Layer, R.Words, Hist, Filter, B.Entered, F.Left, StampedInTurn;
    LeftSame(f, f');
    FilterConcat(f.sent, [cell], EndToEnd);
    FilterOne(cell, EndToEnd);
    assert Filter(f.sent, EndToEnd) + [] == Filter(f.sent, EndToEnd);
  }

  /** An end puts its layer on. */
  lemma ChannelInstalls(
    s: Suite, bridged: bool, f: F.Pipe, b: B.Pipe, out: Option<Half>, into: Option<Half>, key: Key32, seed: bytes,
    said: seq<RelayCell>, heard: seq<RelayCell>, inner: seq<Flight>, out': Option<Half>, into': Option<Half>)
    requires Channel(s, bridged, f, b, out, into, key, seed, said, heard, inner)
    requires out' == out || (out.None? && out' == Some(Half(key, 0, seed)))
    requires into' == into || (into.None? && into' == Some(Half(key, 0, seed)))
    ensures Channel(s, bridged, f, b, out', into', key, seed, said, heard, inner)
  {
    hide RecognizedPayload, Layer, R.Words, Filter, B.Entered, F.Left, StampedInTurn, Plains;
    assert seed + Hist([]) == seed;
    assert After(key, seed, []) == Half(key, 0, seed);
  }

  lemma ChannelBridges(
    s: Suite, f: F.Pipe, b: B.Pipe, out: Option<Half>, into: Option<Half>, key: Key32, seed: bytes,
    said: seq<RelayCell>, heard: seq<RelayCell>, inner: seq<Flight>)
    requires Channel(s, false, f, b, out, into, key, seed, said, heard, inner)
    ensures Channel(s, true, f, b, out, into, key, seed, said, heard, inner)
  {
  }

  /** While there is no bridge, or no layer at the far end, nothing has arrived. */
  lemma ChannelSilent(
    s: Suite, bridged: bool, f: F.Pipe, b: B.Pipe, out: Option<Half>, into: Option<Half>, key: Key32, seed: bytes,
    said: seq<RelayCell>, heard: seq<RelayCell>, inner: seq<Flight>)
    requires Channel(s, bridged, f, b, out, into, key, seed, said, heard, inner) && (!bridged || into.None?)
    ensures heard == []
  {
    hide RecognizedPayload, Layer, R.Words, Hist, Filter, StampedInTurn, F.Left, B.Front;
    EnteredIsReceivedAndBeyond(b);
    assert |Plains(F.Left(f))| == |Plains(B.Entered(b))|;
  }

  /** Whoever has an end-to-end cell on the way has said something. */
  lemma ChannelSaid(
    s: Suite, bridged: bool, f: F.Pipe, b: B.Pipe, out: Option<Half>, into: Option<Half>, key: Key32, seed: bytes,
    said: seq<RelayCell>, heard: seq<RelayCell>, inner: seq<Flight>, g: Flight)
    requires Channel(s, bridged, f, b, out, into, key, seed, said, heard, inner)
    requires g in f.sent && !g.addressed
    ensures said != []
  {
    hide RecognizedPayload, Layer, R.Word, Hist, B.Entered, F.Left, StampedInTurn, Plains;
    FilterMember(f.sent, EndToEnd, g);
  }

  // ── What each step does to its line ─────────────────────────────────

  ghost predicate Healthy(s: Suite, l: Line) {
    Whole(l) && F.Inv(s, Fwd(l)) && B.Inv(s, Bwd(l))
  }

  /** Sending with the layer on is the forward pipe's send of an end-to-end cell, after one step of the
      outgoing layer. */
  lemma LineSendsMeaning(s: Suite, l: Line, target: nat, rc: RelayCell, now: Instant)
    requires Healthy(s, l) && Sendable(l, target) && l.origin.e2e.Some? && rc.recognized == 0 && rc.digest == 0
    ensures var l' := LineSends(s, l, target, rc, now);
            var plain := Stamped(s, l, rc);
            var out := l.origin.e2e.value.forward;
            && Healthy(s, l') && Bwd(l') == Bwd(l)
            && Fwd(l').sent == Fwd(l).sent + [Flight(|l.relays|, false, Nonces(Fwd(l).sender), Inside(s, l, rc))]
            && Fwd(l').gone == Fwd(l).gone
            && Out(l') == Some(Half(out.key, WrapSucc(out.nonce), out.digest + Blank(plain))) && Into(l') == Into(l)
            && RecognizedPayload(s, plain, out.digest) && R.Word(Flight(1, true, [], plain)) == rc
  {
    var l' := LineSends(s, l, target, rc, now);
    var out := l.origin.e2e.value.forward;
    var plain := Inside(s, l, rc);
    StampedIsRecognized(s, rc, out.digest);
    hide RecognizedPayload, FromPayload, ToPayload, Blank, Layer, Layers, Hist, Filter, F.Wire, StampDigest, F.HopInv, F.CellInv, B.Inv;
    var p := Fwd(l);
    F.SendPreserves(s, p, p.sender, |l.relays|, false, plain);
    assert Nonces(p.sender)[..|l.relays|] == Nonces(p.sender);
    assert Fwd(l') == F.Send(s, p, p.sender, |l.relays|, false, plain);
    assert Bwd(l') == Bwd(l);
  }

  /** What an end without its layer sends, as it goes out. */
  function OwnFlight(s: Suite, l: Line, target: nat, rc: RelayCell): Flight
    requires target < |l.origin.hops|
  {
    var hs := Forwards(l.origin.hops);
    Flight(target + 1, true, Nonces(hs)[..target + 1], ToPayload(StampDigest(s, rc, hs[target].digest).0))
  }

  /** Without the layer it is the send of an ordinary cell. */
  lemma LineSendsOwn(s: Suite, l: Line, target: nat, rc: RelayCell, now: Instant)
    requires Whole(l) && Sendable(l, target) && l.origin.e2e.None?
    ensures var l' := LineSends(s, l, target, rc, now);
            && Fwd(l') == F.SendTo(s, Fwd(l), target, rc) && Bwd(l') == Bwd(l)
            && l'.origin == l.origin.(hops := l'.origin.hops, lastActivity := now) && l'.relays == l.relays
  {
    hide Layers;
  }

  lemma OwnSendKeepsPipe(s: Suite, l: Line, target: nat, rc: RelayCell)
    requires Healthy(s, l) && target < |l.origin.hops| && rc.recognized == 0 && rc.digest == 0
    ensures var q := F.SendTo(s, Fwd(l), target, rc);
            var f := OwnFlight(s, l, target, rc);
            && F.Inv(s, q) && |q.sender| == |Fwd(l).sender| && |q.relays| == |Fwd(l).relays| && q.gone == Fwd(l).gone
            && q.sent == l.log.sent + [f] && q.book == l.log.fbook[0 := l.log.fbook[0] + [f]]
            && FromPayload(f.plain).Some? && FromPayload(f.plain).value.command == rc.command
  {
    var p := Fwd(l);
    var (rc', digest') := StampDigest(s, rc, p.sender[target].digest);
    StampedIsRecognized(s, rc, p.sender[target].digest);
    hide Blank, ToPayload, FromPayload, Layers, Hist, Filter, F.Wire;
    var sender1 := p.sender[target := p.sender[target].(digest := digest')];
    F.SendPreserves(s, p, sender1, target + 1, true, ToPayload(rc'));
  }

  lemma LineSendsOwnMeaning(s: Suite, l: Line, target: nat, rc: RelayCell, now: Instant)
    requires Healthy(s, l) && Sendable(l, target) && l.origin.e2e.None? && rc.recognized == 0 && rc.digest == 0
    ensures var l' := LineSends(s, l, target, rc, now);
            && Healthy(s, l') && Bwd(l') == Bwd(l)
            && Fwd(l').sent == Fwd(l).sent + [OwnFlight(s, l, target, rc)] && Fwd(l').gone == Fwd(l).gone
            && |l'.origin.hops| == |l.origin.hops| && Out(l') == Out(l) && Into(l') == Into(l)
  {
    LineSendsOwn(s, l, target, rc, now);
    OwnSendKeepsPipe(s, l, target, rc);
    hide F.HopInv, F.CellInv, B.Inv, F.SendTo, LineSends, OwnFlight;
    var l' := LineSends(s, l, target, rc, now);
    assert |Fwd(l').sender| == |l'.origin.hops|;
  }

  /** `handle_forward_relay` is the forward pipe's step. */
  lemma LineTakesIsStep(s: Suite, l: Line, i: nat, now: Instant)
    requires Whole(l) && i < |l.down| && l.down[i] != []
    ensures var (l', got) := LineTakes(s, l, i, now);
            var (p', outcome) := F.RelayStep(s, Fwd(l), i);
            && Fwd(l') == p' && Bwd(l') == Bwd(l) && l'.origin == l.origin && |l'.relays| == |l.relays|
            && (forall k :: 0 <= k < |l.relays| ==> l'.relays[k].Next() == l.relays[k].Next())
            && got == (if outcome.Exited? then Some(outcome.payload) else None)
  {
    hide RecognizedPayload, FromPayload, Blank, Layer;
    var (l', got) := LineTakes(s, l, i, now);
    assert R.RelayForwards(l'.relays) == F.RelayStep(s, Fwd(l), i).0.relays;
    assert R.RelayBackwards(l'.relays) == R.RelayBackwards(l.relays);
  }

  /** An end-to-end cell leaves the circuit exactly when it gets out of the last relay. */
  lemma StepLeft(s: Suite, p: F.Pipe, i: nat)
    requires F.Inv(s, p) && i < |p.wires| && p.wires[i] != [] && F.NotMistaken(s, p, i)
    ensures var (p', outcome) := F.RelayStep(s, p, i);
            var f := p.book[i][0];
            && F.Shape(p') && |p.relays| > 0 && |p'.relays| == |p.relays|
            && F.Left(p') == F.Left(p) + (if outcome.Exited? then [f] else [])
            && (outcome.Exited? ==> outcome.payload == f.plain)
  {
    hide RecognizedPayload, FromPayload, Blank, Layer, Layers, Hist, Filter, F.Wire, F.HopInv, F.NotMistaken, F.Left;
    F.StepOutcome(s, p, i);
    var f := p.book[i][0];
    assert F.CellInv(s, p, i, f, p.wires[i][0]);
    assert F.RelayStep(s, p, i).1.Exited? <==> i + 1 == |p.relays| && !f.addressed;
    LeftSnoc(p, F.RelayStep(s, p, i).0, i, f);
  }

  lemma LeftSnoc(p: F.Pipe, p': F.Pipe, i: nat, f: Flight)
    requires F.Shape(p) && F.Shape(p') && |p'.relays| == |p.relays| && i < |p.relays|
    requires p'.gone == p.gone[i := p.gone[i] + [f]]
    ensures F.Left(p') == F.Left(p) + (if i + 1 == |p.relays| && !f.addressed then [f] else [])
  {
    hide Filter;
    FilterConcat(p.gone[i], [f], EndToEnd);
    FilterOne(f, EndToEnd);
    assert F.Left(p) + [] == F.Left(p);
  }

  /** A step at a relay; only an end-to-end cell at the last relay gets out, with all layers off. */
  lemma LineTakesMeaning(s: Suite, l: Line, i: nat, now: Instant)
    requires Healthy(s, l) && i < |l.down| && l.down[i] != [] && F.NotMistaken(s, Fwd(l), i)
    ensures var (l', got) := LineTakes(s, l, i, now);
            var f := l.log.fbook[i][0];
            && Healthy(s, l') && Bwd(l') == Bwd(l) && l'.origin == l.origin && |l'.relays| == |l.relays|
            && Fwd(l').sent == Fwd(l).sent
            && F.Left(Fwd(l')) == F.Left(Fwd(l)) + (if got.Some? then [f] else [])
            && (got.Some? ==> got.value == f.plain)
  {
    hide F.HopInv, F.CellInv, B.Inv, F.Left, LineTakes, F.NotMistaken;
    LineTakesIsStep(s, l, i, now);
    StepLeft(s, Fwd(l), i);
    F.StepPreserves(s, Fwd(l), i);
    StepSends(s, Fwd(l), i);
  }

  lemma StepSends(s: Suite, p: F.Pipe, i: nat)
    requires F.Shape(p) && i < |p.wires| && p.wires[i] != []
    ensures F.RelayStep(s, p, i).0.sent == p.sent
  {
    hide RecognizedPayload, FromPayload, Blank, Layer;
  }

  /** What a line's backward pipe keeps when a relay of it handles a cell. */
  ghost predicate OnlyBackward(l: Line, l': Line) {
    && Fwd(l') == Fwd(l) && l'.origin == l.origin && |l'.relays| == |l.relays|
    && Bwd(l').recv == Bwd(l).recv
  }

  lemma LineCarriesMeaning(s: Suite, l: Line, q: Payload, now: Instant)
    requires Healthy(s, l)
    ensures var l' := LineCarries(s, l, q, now);
            && Healthy(s, l') && OnlyBackward(l, l')
            && Plains(B.Entered(Bwd(l'))) == Plains(B.Entered(Bwd(l))) + [q]
  {
    var l' := LineCarries(s, l, q, now);
    var b := Bwd(l);
    var o := |l.relays| - 1;
    hide RecognizedPayload, FromPayload, ToPayload, Blank, Layer, Layers, Hist, F.Inv, B.CountInv, B.DigestInv, B.CellInv,
         B.Entered;
    B.EmitPreserves(s, b, b.relays, o, false, q);
    B.EmitEntered(s, b, b.relays, o, false, q);
    PlainsSnoc(B.Entered(b), Flight(o + 1, false, [], q));
    assert R.RelayForwards(l'.relays) == R.RelayForwards(l.relays);
    assert Bwd(l') == B.Emit(s, b, b.relays, o, false, q);
    assert Fwd(l') == Fwd(l);
  }

  lemma LineRelaySendsMeaning(s: Suite, l: Line, i: nat, rc: RelayCell)
    requires Healthy(s, l) && i < |l.relays| && rc.recognized == 0 && rc.digest == 0
    ensures var l' := LineRelaySends(s, l, i, rc);
            && Healthy(s, l') && OnlyBackward(l, l') && B.Entered(Bwd(l')) == B.Entered(Bwd(l))
  {
    var l' := LineRelaySends(s, l, i, rc);
    var b := Bwd(l);
    var (rc', digest') := StampDigest(s, rc, b.relays[i].digest);
    StampedIsRecognized(s, rc, b.relays[i].digest);
    hide RecognizedPayload, FromPayload, ToPayload, Blank, Layer, Layers, Hist, F.Inv, B.CountInv, B.DigestInv, B.CellInv,
         B.Entered, StampDigest;
    var relays1 := b.relays[i := b.relays[i].(digest := digest')];
    B.EmitPreserves(s, b, relays1, i, true, ToPayload(rc'));
    B.EmitEntered(s, b, relays1, i, true, ToPayload(rc'));
    assert R.RelayForwards(l'.relays) == R.RelayForwards(l.relays);
    assert Bwd(l') == B.EmitOwn(s, b, i, rc);
    assert Fwd(l') == Fwd(l);
    assert B.Entered(b) + [] == B.Entered(b);
  }

  lemma LinePassesBackMeaning(s: Suite, l: Line, i: nat)
    requires Healthy(s, l) && i + 1 < |l.up| && l.up[i + 1] != []
    ensures var l' := LinePassesBack(s, l, i);
            && Healthy(s, l') && OnlyBackward(l, l') && B.Entered(Bwd(l')) == B.Entered(Bwd(l))
  {
    var l' := LinePassesBack(s, l, i);
    var b := Bwd(l);
    hide RecognizedPayload, FromPayload, ToPayload, Blank, Layer, Layers, Hist, F.Inv, B.CountInv, B.DigestInv, B.CellInv,
         B.Entered;
    B.WrapPreserves(s, b, i);
    B.WrapEntered(s, b, i);
    assert R.RelayForwards(l'.relays) == R.RelayForwards(l.relays);
    assert Bwd(l') == B.RelayWrap(s, b, i);
    assert Fwd(l') == Fwd(l);
  }

  /** Receiving, whatever comes of it. */
  ghost predicate Received(s: Suite, l: Line, l': Line)
    requires Whole(l)
  {
    && |l.log.bbook| > 0 && l.log.bbook[0] != []
    && Healthy(s, l') && Fwd(l') == Fwd(l) && |l'.relays| == |l.relays|
    && Bwd(l').recv == Bwd(l).recv + [l.log.bbook[0][0]] && B.Entered(Bwd(l')) == B.Entered(Bwd(l))
    && |Bwd(l').receiver| == |Bwd(l).receiver| && Out(l') == Out(l)
  }

  /** `decrypt_inbound` is the backward pipe's receive. */
  lemma LineReceivesIsStep(s: Suite, l: Line, now: Instant)
    requires Whole(l) && l.up[0] != []
    ensures var l' := LineReceives(s, l, now).0;
            && Bwd(l') == B.Receive(s, Bwd(l)).0 && Fwd(l') == Fwd(l) && l'.relays == l.relays
            && |l'.origin.hops| == |l.origin.hops| && Out(l') == Out(l)
  {
    hide FromPayload, Blank, Layer, Peel, RecognizedPayload, B.Entered;
    var l' := LineReceives(s, l, now).0;
    assert Forwards(l'.origin.hops) == Forwards(l.origin.hops);
  }

  lemma LineReceivesFrame(s: Suite, l: Line, now: Instant)
    requires Healthy(s, l) && l.up[0] != [] && B.NotMistaken(s, Bwd(l))
    ensures Received(s, l, LineReceives(s, l, now).0)
  {
    B.ReceivePreserves(s, Bwd(l));
    B.ReceiveEntered(s, Bwd(l));
    LineReceivesIsStep(s, l, now);
    hide F.HopInv, F.CellInv, B.CountInv, B.DigestInv, B.CellInv, B.Entered, Peel, B.NotMistaken, LineReceives, Out;
  }

  lemma LineReceivesFrom(s: Suite, l: Line, now: Instant)
    requires Healthy(s, l) && l.up[0] != [] && B.NotMistaken(s, Bwd(l))
    ensures |l.log.bbook| > 0 && l.log.bbook[0] != []
    ensures var (l', got) := LineReceives(s, l, now);
            && (l.log.bbook[0][0].addressed ==> got.None? && Into(l') == Into(l) && !Unclaimed(s, l, now))
            && (!l.log.bbook[0][0].addressed && Into(l).None? ==> got.None? && Into(l').None? && Unclaimed(s, l, now))
            && (Into(l').Some? <==> Into(l).Some?)
  {
    B.ReceiveOutcome(s, Bwd(l));
    hide FromPayload, ToPayload, Blank, Layer, Layers, Hist, F.Inv, B.CountInv, B.DigestInv, B.CellInv, B.Entered, Peel,
         B.NotMistaken, RecognizedPayload;
  }

  lemma LineReceivesMeaning(s: Suite, l: Line, now: Instant)
    requires Healthy(s, l) && l.up[0] != [] && B.NotMistaken(s, Bwd(l))
    ensures var (l', got) := LineReceives(s, l, now);
            && Received(s, l, l')
            && (l.log.bbook[0][0].addressed ==> got.None? && Into(l') == Into(l) && !Unclaimed(s, l, now))
            && (!l.log.bbook[0][0].addressed && Into(l).None? ==> got.None? && Into(l').None? && Unclaimed(s, l, now))
            && (Into(l').Some? <==> Into(l).Some?)
  {
    hide F.Inv, B.Inv, LineReceives, Unclaimed, B.NotMistaken, Into;
    LineReceivesFrame(s, l, now);
    LineReceivesFrom(s, l, now);
  }

  /** The end-to-end layer takes what it must find inside, `g`. */
  lemma LineReceivesFar(s: Suite, l: Line, now: Instant, g: Flight)
    requires Healthy(s, l) && l.up[0] != [] && B.NotMistaken(s, Bwd(l)) && l.origin.e2e.Some?
    requires var into, f := l.origin.e2e.value.backward, l.log.bbook[0][0];
             !f.addressed && Layer(s, into.key, into.nonce, f.plain) == g.plain && RecognizedPayload(s, g.plain, into.digest)
    ensures var (l', got) := LineReceives(s, l, now);
            var into := l.origin.e2e.value.backward;
            && got == Some(R.Word(g)) && !Unclaimed(s, l, now)
            && Into(l') == Some(Half(into.key, WrapSucc(into.nonce), into.digest + Blank(g.plain)))
  {
    B.ReceiveOutcome(s, Bwd(l));
    hide FromPayload, ToPayload, Blank, Layer, Layers, Hist, F.Inv, B.Inv, Peel, B.NotMistaken;
  }

  // ── Both directions ─────────────────────────────────────────────────

  /** The ends have the layers of one handshake. */
  predicate Agreed(layers: seq<HopState>) {
    && |layers| == 2
    && layers[0].forward == layers[1].backward && layers[0].backward == layers[1].forward
    && layers[0].forward.nonce == 0 && layers[0].backward.nonce == 0
  }

  /** All of what end `x` says is on its way or has arrived, or none of it ever will. */
  ghost predicate ChannelFrom(s: Suite, j: Joined, x: nat)
    requires Sound(j) && x < 2
  {
    var key, seed := j.layers[x].forward.key, j.layers[x].forward.digest;
    if j.lost[x] then j.said[x] != [] && j.heard[1 - x] == []
    else
      Channel(s, j.bridged, Fwd(j.lines[x]), Bwd(j.lines[1 - x]), Out(j.lines[x]), Into(j.lines[1 - x]), key, seed,
              j.said[x], j.heard[1 - x], j.inner[x])
  }

  ghost predicate Good(s: Suite, j: Joined) {
    && Sound(j) && Agreed(j.layers)
    && Healthy(s, j.lines[0]) && Healthy(s, j.lines[1])
    && ChannelFrom(s, j, 0) && ChannelFrom(s, j, 1)
  }

  /** A new state of line `x` that its far end sees as the channel from `x` alone does. */
  lemma GoodFrom(s: Suite, j: Joined, j': Joined, x: nat)
    requires Good(s, j) && x < 2 && Sound(j') && j'.layers == j.layers
    requires Healthy(s, j'.lines[x]) && Healthy(s, j'.lines[1 - x])
    requires ChannelFrom(s, j', x) && ChannelFrom(s, j', 1 - x)
    ensures Good(s, j')
  {
    hide Channel, F.Inv, B.Inv, Whole;
    assert x == 0 || x == 1;
  }

  lemma GoodParts(s: Suite, j: Joined, x: nat)
    requires Good(s, j) && x < 2
    ensures Sound(j) && Healthy(s, j.lines[x]) && Healthy(s, j.lines[1 - x]) && Whole(j.lines[x]) && Whole(j.lines[1 - x])
    ensures ChannelFrom(s, j, x) && ChannelFrom(s, j, 1 - x)
  {
    hide Channel, F.Inv, B.Inv, Whole;
    assert x == 0 || x == 1;
  }

  lemma ChannelKept(s: Suite, j: Joined, j': Joined, x: nat)
    requires Sound(j) && Sound(j') && x < 2 && ChannelFrom(s, j, x)
    requires j'.layers == j.layers && j'.bridged == j.bridged && j'.lost[x] == j.lost[x]
    requires Fwd(j'.lines[x]) == Fwd(j.lines[x]) && Bwd(j'.lines[1 - x]) == Bwd(j.lines[1 - x])
    requires Out(j'.lines[x]) == Out(j.lines[x]) && Into(j'.lines[1 - x]) == Into(j.lines[1 - x])
    requires j'.said[x] == j.said[x] && j'.heard[1 - x] == j.heard[1 - x] && j'.inner[x] == j.inner[x]
    ensures ChannelFrom(s, j', x)
  {
    hide Channel;
  }

  lemma SendsGood(s: Suite, j: Joined, x: nat, target: nat, rc: RelayCell, now: Instant)
    requires Good(s, j) && Enabled(j, EndSends(x, target, rc, now)) && j.lines[x].origin.e2e.Some?
    ensures Good(s, Next(s, j, EndSends(x, target, rc, now)))
  {
    hide Channel, LineSends, Whole, F.Inv, B.Inv, RecognizedPayload, Blank, Layer, R.Word;
    var l, other := j.lines[x], j.lines[1 - x];
    GoodParts(s, j, x);
    WholeShapes(l);
    WholeShapes(other);
    var j' := Next(s, j, EndSends(x, target, rc, now));
    var l' := j'.lines[x];
    LineSendsMeaning(s, l, target, rc, now);
    var g := Flight(1, true, [], Stamped(s, l, rc));
    var cell := Flight(|l.relays|, false, Nonces(Fwd(l).sender), Inside(s, l, rc));
    WholeShapes(l');
    assert Fwd(l').sender == Forwards(l'.origin.hops);
    if !j.lost[x] {
      ChannelSends(s, j.bridged, Fwd(l), Bwd(other), Out(l), Into(other), j.layers[x].forward.key, j.layers[x].forward.digest,
                   j.said[x], j.heard[1 - x], j.inner[x], Fwd(l'), rc, g, cell);
    }
    ChannelKept(s, j, j', 1 - x);
    GoodFrom(s, j, j', x);
  }

  lemma OwnSendsGood(s: Suite, j: Joined, x: nat, target: nat, rc: RelayCell, now: Instant)
    requires Good(s, j) && Enabled(j, EndSends(x, target, rc, now)) && j.lines[x].origin.e2e.None?
    ensures Good(s, Next(s, j, EndSends(x, target, rc, now)))
  {
    hide Channel, LineSends, Whole, F.Inv, B.Inv, RecognizedPayload, Blank, Layer;
    var l, other := j.lines[x], j.lines[1 - x];
    GoodParts(s, j, x);
    WholeShapes(l);
    WholeShapes(other);
    var j' := Next(s, j, EndSends(x, target, rc, now));
    var l' := j'.lines[x];
    LineSendsOwnMeaning(s, l, target, rc, now);
    WholeShapes(l');
    if !j.lost[x] {
      ChannelSendsOwn(s, j.bridged, Fwd(l), Bwd(other), Out(l), Into(other), j.layers[x].forward.key,
                      j.layers[x].forward.digest, j.said[x], j.heard[1 - x], j.inner[x], Fwd(l'), OwnFlight(s, l, target, rc));
    }
    ChannelKept(s, j, j', 1 - x);
    GoodFrom(s, j, j', x);
  }

  lemma WholeShapes(l: Line)
    requires Whole(l)
    ensures F.Shape(Fwd(l)) && B.Shape(Bwd(l)) && |Fwd(l).sender| == |Fwd(l).relays| == |l.relays|
    ensures |Bwd(l).receiver| == |Bwd(l).relays| == |l.relays| == |l.up| && 0 < |l.relays|
    ensures |l.log.bbook| == |l.up| && |l.log.fbook| == |l.down| == |l.relays|
    ensures forall i :: 0 <= i < |l.up| ==> |l.up[i]| == |l.log.bbook[i]|
  {
  }

  lemma TakesGood(s: Suite, j: Joined, x: nat, i: nat, now: Instant)
    requires Good(s, j) && Enabled(j, RelayTakes(x, i, now)) && NoMistake(s, j, RelayTakes(x, i, now))
    requires LineTakes(s, j.lines[x], i, now).1.Some? ==> j.bridged
    ensures Good(s, Next(s, j, RelayTakes(x, i, now)))
  {
    hide Channel, LineTakes, LineCarries, Whole, F.Inv, B.Inv, F.Left, B.Entered, F.NotMistaken, Good, Plains;
    var l, other := j.lines[x], j.lines[1 - x];
    GoodParts(s, j, x);
    WholeShapes(l);
    WholeShapes(other);
    var j' := Next(s, j, RelayTakes(x, i, now));
    var (l', got) := LineTakes(s, l, i, now);
    LineTakesMeaning(s, l, i, now);
    WholeShapes(l');
    var other' := j'.lines[1 - x];
    if got.Some? {
      LineCarriesMeaning(s, other, got.value, now);
      PlainsSnoc(F.Left(Fwd(l)), l.log.fbook[i][0]);
    } else {
      assert F.Left(Fwd(l)) + [] == F.Left(Fwd(l));
    }
    WholeShapes(other');
    if !j.lost[x] {
      var key, seed := j.layers[x].forward.key, j.layers[x].forward.digest;
      ChannelPlains(s, j.bridged, Fwd(l), Bwd(other), Out(l), Into(other), key, seed, j.said[x], j.heard[1 - x], j.inner[x]);
      assert Bwd(other').recv == Bwd(other).recv;
      ChannelMoves(s, j.bridged, Fwd(l), Bwd(other), Out(l), Into(other), key, seed, j.said[x], j.heard[1 - x], j.inner[x],
                   Fwd(l'), Bwd(other'));
    }
    ChannelKept(s, j, j', 1 - x);
    GoodFrom(s, j, j', x);
  }

  /** A cell reaches the end of a circuit that is not bridged yet: it is lost, and so will all that follow be. */
  lemma DropsGood(s: Suite, j: Joined, x: nat, i: nat, now: Instant)
    requires Good(s, j) && Enabled(j, RelayTakes(x, i, now)) && NoMistake(s, j, RelayTakes(x, i, now))
    requires LineTakes(s, j.lines[x], i, now).1.Some? && !j.bridged
    ensures Good(s, Next(s, j, RelayTakes(x, i, now)))
  {
    hide Channel, LineTakes, LineCarries, Whole, F.Inv, B.Inv, F.Left, B.Entered, F.NotMistaken;
    var l, other := j.lines[x], j.lines[1 - x];
    GoodParts(s, j, x);
    WholeShapes(l);
    WholeShapes(other);
    var j' := Next(s, j, RelayTakes(x, i, now));
    LineTakesMeaning(s, l, i, now);
    if !j.lost[x] {
      var key, seed := j.layers[x].forward.key, j.layers[x].forward.digest;
      ChannelSilent(s, j.bridged, Fwd(l), Bwd(other), Out(l), Into(other), key, seed, j.said[x], j.heard[1 - x], j.inner[x]);
      LeftWasSent(s, l, i, now);
      ChannelSaid(s, j.bridged, Fwd(l), Bwd(other), Out(l), Into(other), key, seed, j.said[x], j.heard[1 - x], j.inner[x],
                  l.log.fbook[i][0]);
    }
    ChannelKept(s, j, j', 1 - x);
    GoodFrom(s, j, j', x);
  }

  /** What gets out of a circuit was an end-to-end cell of its end. */
  lemma LeftWasSent(s: Suite, l: Line, i: nat, now: Instant)
    requires Healthy(s, l) && i < |l.down| && l.down[i] != [] && F.NotMistaken(s, Fwd(l), i)
    requires LineTakes(s, l, i, now).1.Some?
    ensures i < |l.log.fbook| && l.log.fbook[i] != [] && !l.log.fbook[i][0].addressed && l.log.fbook[i][0] in Fwd(l).sent
  {
    hide F.HopInv, F.CellInv, B.Inv, F.Left, LineTakes, F.NotMistaken, F.RelayStep;
    LineTakesIsStep(s, l, i, now);
    StepLeft(s, Fwd(l), i);
    ExitIsFar(s, Fwd(l), i);
    F.WireMember(l.log.fbook, i, i, 0);
    WireWasSent(s, Fwd(l), i, l.log.fbook[i][0]);
  }

  lemma ExitIsFar(s: Suite, p: F.Pipe, i: nat)
    requires F.Inv(s, p) && i < |p.wires| && p.wires[i] != [] && F.NotMistaken(s, p, i)
    ensures p.book[i][0].span > i && (F.RelayStep(s, p, i).1.Exited? ==> !p.book[i][0].addressed)
  {
    hide RecognizedPayload, FromPayload, Blank, Layer, Layers, Hist, Filter, F.Wire, F.HopInv, F.NotMistaken;
    F.StepOutcome(s, p, i);
    assert F.CellInv(s, p, i, p.book[i][0], p.wires[i][0]);
  }

  lemma WireWasSent(s: Suite, p: F.Pipe, i: nat, f: Flight)
    requires F.Inv(s, p) && i < |p.relays| && f in F.Wire(p.book, i) && f.span > i
    ensures f in p.sent
  {
    hide F.CellInv, RecognizedPayload, F.DigestInv;
    assert F.HopInv(s, p, i);
    FilterMember(F.Wire(p.book, i), Past(i), f);
    assert f in p.gone[i] + F.InFlight(p, i);
    FilterMember(p.sent, Past(i), f);
  }

  lemma ChannelPlains(
    s: Suite, bridged: bool, f: F.Pipe, b: B.Pipe, out: Option<Half>, into: Option<Half>, key: Key32, seed: bytes,
    said: seq<RelayCell>, heard: seq<RelayCell>, inner: seq<Flight>)
    requires Channel(s, bridged, f, b, out, into, key, seed, said, heard, inner)
    ensures F.Shape(f) && B.Shape(b) && |f.relays| > 0 && Plains(F.Left(f)) == Plains(B.Entered(b))
    ensures bridged || F.Left(f) == []
  {
  }

  /** A relay of line `x` adds a layer or puts in a cell of its own. */
  lemma BackwardGood(s: Suite, j: Joined, x: nat, l': Line)
    requires Sound(j) && x < 2 && Whole(j.lines[x]) && Whole(l') && OnlyBackward(j.lines[x], l')
    requires B.Entered(Bwd(l')) == B.Entered(Bwd(j.lines[x]))
    requires Good(s, j) && Healthy(s, l')
    ensures Good(s, j.(lines := j.lines[x := l']))
  {
    hide Channel, Whole, F.Inv, B.Inv, F.Left, B.Entered;
    var l, other := j.lines[x], j.lines[1 - x];
    var j' := j.(lines := j.lines[x := l']);
    GoodParts(s, j, x);
    WholeShapes(l);
    WholeShapes(other);
    WholeShapes(l');
    if !j.lost[1 - x] {
      var key, seed := j.layers[1 - x].forward.key, j.layers[1 - x].forward.digest;
      ChannelPlains(s, j.bridged, Fwd(other), Bwd(l), Out(other), Into(l), key, seed, j.said[1 - x], j.heard[x], j.inner[1 - x]);
      ChannelMoves(s, j.bridged, Fwd(other), Bwd(l), Out(other), Into(l), key, seed, j.said[1 - x], j.heard[x], j.inner[1 - x],
                   Fwd(other), Bwd(l'));
    }
    ChannelKept(s, j, j', x);
    GoodFrom(s, j, j', x);
  }

  /** A cell from a hop of the end's own circuit, or one in a direction that is lost. */
  lemma ReceivesOwnGood(s: Suite, j: Joined, x: nat, now: Instant)
    requires Good(s, j) && Enabled(j, EndReceives(x, now)) && NoMistake(s, j, EndReceives(x, now))
    requires j.lost[1 - x] || (|j.lines[x].log.bbook| > 0 && j.lines[x].log.bbook[0] != [] && j.lines[x].log.bbook[0][0].addressed)
    ensures Good(s, Next(s, j, EndReceives(x, now)))
  {
    hide Channel, LineReceives, Whole, F.Inv, B.Inv, F.Left, B.Entered, B.NotMistaken, RecognizedPayload, Blank, Layer, R.Word, Unclaimed;
    var l, other := j.lines[x], j.lines[1 - x];
    GoodParts(s, j, x);
    WholeShapes(l);
    WholeShapes(other);
    var j' := Next(s, j, EndReceives(x, now));
    LineReceivesMeaning(s, l, now);
    var l' := j'.lines[x];
    WholeShapes(l');
    if !j.lost[1 - x] {
      ChannelIgnores(s, j.bridged, Fwd(other), Bwd(l), Out(other), Into(l), j.layers[1 - x].forward.key,
                     j.layers[1 - x].forward.digest, j.said[1 - x], j.heard[x], j.inner[1 - x], Bwd(l'));
    }
    ChannelKept(s, j, j', x);
    GoodFrom(s, j, j', x);
  }

  /** The next end-to-end cell. */
  lemma ReceivesGood(s: Suite, j: Joined, x: nat, now: Instant)
    requires Good(s, j) && Enabled(j, EndReceives(x, now)) && NoMistake(s, j, EndReceives(x, now))
    requires !j.lost[1 - x] && j.lines[x].origin.e2e.Some?
    requires |j.lines[x].log.bbook| > 0 && j.lines[x].log.bbook[0] != [] && !j.lines[x].log.bbook[0][0].addressed
    ensures Good(s, Next(s, j, EndReceives(x, now))) && !Unclaimed(s, j.lines[x], now)
  {
    hide Channel, LineReceives, Whole, F.Inv, B.Inv, F.Left, B.Entered, B.NotMistaken, RecognizedPayload, Blank, Layer, R.Word, Unclaimed;
    var l, other := j.lines[x], j.lines[1 - x];
    GoodParts(s, j, x);
    WholeShapes(l);
    WholeShapes(other);
    var j' := Next(s, j, EndReceives(x, now));
    LineReceivesMeaning(s, l, now);
    var l' := j'.lines[x];
    WholeShapes(l');
    var f, b := Fwd(other), Bwd(l);
    var key, seed := j.layers[1 - x].forward.key, j.layers[1 - x].forward.digest;
    var said, heard, inner := j.said[1 - x], j.heard[x], j.inner[1 - x];
    var n := |Filter(b.recv, EndToEnd)|;
    NextArrival(s, j.bridged, f, b, Out(other), Into(l), key, seed, said, heard, inner);
    LineReceivesFar(s, l, now, inner[n]);
    ChannelReceives(s, j.bridged, f, b, Out(other), Into(l), key, seed, said, heard, inner, Bwd(l'));
    ChannelKept(s, j, j', x);
    GoodFrom(s, j, j', x);
  }

  /** An end-to-end cell comes to an end without a layer: it is lost, and so will all that follow be. */
  lemma MissesGood(s: Suite, j: Joined, x: nat, now: Instant)
    requires Good(s, j) && Enabled(j, EndReceives(x, now)) && NoMistake(s, j, EndReceives(x, now))
    requires !j.lost[1 - x] && j.lines[x].origin.e2e.None?
    requires |j.lines[x].log.bbook| > 0 && j.lines[x].log.bbook[0] != [] && !j.lines[x].log.bbook[0][0].addressed
    ensures Good(s, Next(s, j, EndReceives(x, now))) && Unclaimed(s, j.lines[x], now)
  {
    hide Channel, LineReceives, Whole, F.Inv, B.Inv, F.Left, B.Entered, B.NotMistaken, RecognizedPayload, Blank, Layer, R.Word, Unclaimed;
    var l, other := j.lines[x], j.lines[1 - x];
    GoodParts(s, j, x);
    WholeShapes(l);
    WholeShapes(other);
    var j' := Next(s, j, EndReceives(x, now));
    LineReceivesMeaning(s, l, now);
    var f, b := Fwd(other), Bwd(l);
    var key, seed := j.layers[1 - x].forward.key, j.layers[1 - x].forward.digest;
    var said, heard, inner := j.said[1 - x], j.heard[x], j.inner[1 - x];
    NextArrival(s, j.bridged, f, b, Out(other), Into(l), key, seed, said, heard, inner);
    ChannelSilent(s, j.bridged, f, b, Out(other), Into(l), key, seed, said, heard, inner);
    SaidIsInner(s, j.bridged, f, b, Out(other), Into(l), key, seed, said, heard, inner);
    ChannelKept(s, j, j', x);
    GoodFrom(s, j, j', x);
  }

  lemma SaidIsInner(
    s: Suite, bridged: bool, f: F.Pipe, b: B.Pipe, out: Option<Half>, into: Option<Half>, key: Key32, seed: bytes,
    said: seq<RelayCell>, heard: seq<RelayCell>, inner: seq<Flight>)
    requires Channel(s, bridged, f, b, out, into, key, seed, said, heard, inner)
    ensures |said| == |inner|
  {
    hide F.Left, B.Entered, Sealed, StampedInTurn;
  }

  lemma InstallsGood(s: Suite, j: Joined, x: nat, layer: HopState)
    requires Good(s, j) && Enabled(j, Installs(x, layer))
    ensures Good(s, Next(s, j, Installs(x, layer)))
  {
    hide Channel, F.Inv, B.Inv;
    var l, other := j.lines[x], j.lines[1 - x];
    GoodParts(s, j, x);
    var j' := Next(s, j, Installs(x, layer));
    var l' := j'.lines[x];
    assert Fwd(l') == Fwd(l) && Bwd(l') == Bwd(l);
    assert x == 0 || x == 1;
    if !j.lost[x] {
      ChannelInstalls(s, j.bridged, Fwd(l), Bwd(other), Out(l), Into(other), layer.forward.key, layer.forward.digest,
                      j.said[x], j.heard[1 - x], j.inner[x], Out(l'), Into(other));
    }
    if !j.lost[1 - x] {
      ChannelInstalls(s, j.bridged, Fwd(other), Bwd(l), Out(other), Into(l), layer.backward.key, layer.backward.digest,
                      j.said[1 - x], j.heard[x], j.inner[1 - x], Out(other), Into(l'));
    }
    GoodFrom(s, j, j', x);
  }

  lemma BridgesGood(s: Suite, j: Joined, x: nat)
    requires Good(s, j) && Enabled(j, Bridges(x))
    ensures Good(s, Next(s, j, Bridges(x)))
  {
    hide Channel, F.Inv, B.Inv, Whole;
    GoodParts(s, j, x);
    var j' := Next(s, j, Bridges(x));
    forall y: nat | y < 2
      ensures ChannelFrom(s, j', y)
    {
      assert y == x || y == 1 - x;
      assert ChannelFrom(s, j, y);
      if !j.lost[y] {
        ChannelBridges(s, Fwd(j.lines[y]), Bwd(j.lines[1 - y]), Out(j.lines[y]), Into(j.lines[1 - y]),
                       j.layers[y].forward.key, j.layers[y].forward.digest, j.said[y], j.heard[1 - y], j.inner[y]);
      }
    }
    GoodFrom(s, j, j', x);
  }

  lemma StepGood(s: Suite, j: Joined, step: Step)
    requires Enabled(j, step) && Good(s, j) && NoMistake(s, j, step)
    ensures Good(s, Next(s, j, step))
  {
    GoodParts(s, j, step.x);
    hide Channel, F.Inv, B.Inv, F.Left, B.Entered, LineTakes, LineCarries, LineSends, LineReceives, LineRelaySends,
         LinePassesBack, Whole, F.NotMistaken, B.NotMistaken, ChannelFrom, Healthy;
    WholeShapes(j.lines[step.x]);
    match step
    case EndSends(x, target, rc, now) =>
      if j.lines[x].origin.e2e.Some? {
        SendsGood(s, j, x, target, rc, now);
      } else {
        OwnSendsGood(s, j, x, target, rc, now);
      }
    case RelayTakes(x, i, now) =>
      if LineTakes(s, j.lines[x], i, now).1.Some? && !j.bridged {
        DropsGood(s, j, x, i, now);
      } else {
        TakesGood(s, j, x, i, now);
      }
    case RelaySends(x, i, rc) =>
      LineRelaySendsMeaning(s, j.lines[x], i, rc);
      HealthyWhole(s, LineRelaySends(s, j.lines[x], i, rc));
      BackwardGood(s, j, x, LineRelaySends(s, j.lines[x], i, rc));
    case RelayPassesBack(x, i) =>
      LinePassesBackMeaning(s, j.lines[x], i);
      HealthyWhole(s, LinePassesBack(s, j.lines[x], i));
      BackwardGood(s, j, x, LinePassesBack(s, j.lines[x], i));
    case EndReceives(x, now) =>
      if j.lost[1 - x] || j.lines[x].log.bbook[0][0].addressed {
        ReceivesOwnGood(s, j, x, now);
      } else if j.lines[x].origin.e2e.Some? {
        ReceivesGood(s, j, x, now);
      } else {
        MissesGood(s, j, x, now);
      }
    case Installs(x, layer) => InstallsGood(s, j, x, layer);
    case Bridges(x) => BridgesGood(s, j, x);
  }

  lemma HealthyWhole(s: Suite, l: Line)
    requires Healthy(s, l)
    ensures Whole(l)
  {
  }

  ghost predicate Run(s: Suite, j: Joined, steps: seq<Step>, j': Joined)
    decreases steps
  {
    if steps == [] then j' == j
    else Enabled(j, steps[0]) && NoMistake(s, j, steps[0]) && Run(s, Next(s, j, steps[0]), steps[1..], j')
  }

  lemma {:induction false} RunGood(s: Suite, j: Joined, steps: seq<Step>, j': Joined)
    requires Good(s, j) && Run(s, j, steps, j')
    ensures Good(s, j')
    decreases steps
  {
    hide Good, Enabled, NoMistake, Next;
    if steps != [] {
      StepGood(s, j, steps[0]);
      RunGood(s, Next(s, j, steps[0]), steps[1..], j');
    }
  }

  // ── Joining two built circuits ──────────────────────────────────────

  /** A circuit built as in `CircuitRun`. */
  function LineOf(n: R.Net): Line {
    Line(n.client, n.relays, n.down, n.up, n.log)
  }

  /** The layers the two ends make of what each derived. */
  function LayersOf(clientKeys: E2EKeys, hsKeys: E2EKeys): (r: seq<HopState>)
    ensures |r| == 2
  {
    [HopFromE2E(clientKeys, true), HopFromE2E(hsKeys, false)]
  }

  /** Before either layer is on, and before there is a bridge. */
  function Apart(c: R.Net, h: R.Net, layers: seq<HopState>): Joined {
    Joined([LineOf(c), LineOf(h)], layers, false, [[], []], [[], []], [[], []], [false, false])
  }

  /** A circuit that is built and at rest as far as handshakes go; cells may be in flight. */
  ghost predicate Built(w: R.World, n: R.Net) {
    R.Steady(w, n) && R.AtStage(w, n, R.Idle) && n.client.hops != []
  }

  lemma {:induction false} NoneEndToEnd(fs: seq<Flight>)
    requires forall f :: f in fs ==> f.addressed
    ensures Filter(fs, EndToEnd) == []
  {
    FilterNone(fs, EndToEnd);
  }

  lemma {:induction false} FrontAddressed(recv: seq<Flight>, book: seq<seq<Flight>>, k: nat)
    requires k <= |book| && forall f :: f in recv ==> f.addressed
    requires forall i, m :: 0 <= i < |book| && 0 <= m < |book[i]| ==> book[i][m].addressed
    ensures forall f :: f in B.Front(recv, book, k) ==> f.addressed
  {
    if k > 0 {
      FrontAddressed(recv, book, k - 1);
    }
  }

  /** Everything relay `i` ever took was sent. */
  lemma GoneWasSent(s: Suite, p: F.Pipe, i: nat)
    requires F.Inv(s, p) && i < |p.relays|
    ensures forall f :: f in p.gone[i] ==> f in p.sent
  {
    hide F.CellInv, RecognizedPayload, F.DigestInv;
    assert F.HopInv(s, p, i);
    forall f | f in p.gone[i]
      ensures f in p.sent
    {
      assert f in p.gone[i] + F.InFlight(p, i);
      FilterMember(p.sent, Past(i), f);
    }
  }

  lemma BuiltLine(w: R.World, n: R.Net)
    requires Built(w, n)
    ensures var l := LineOf(n);
            && Healthy(w.s, l) && l.origin.e2e.None?
            && Filter(Fwd(l).sent, EndToEnd) == [] && Filter(Bwd(l).recv, EndToEnd) == []
            && (forall g :: g in Fwd(l).sent ==> g.addressed)
            && F.Left(Fwd(l)) == [] && B.Entered(Bwd(l)) == []
  {
    hide F.HopInv, F.CellInv, B.CellInv, B.CountInv, B.DigestInv, R.ExtendsInFlight, R.ExtendedsInFlight, Filter,
         B.Front, R.TalkAt;
    var l := LineOf(n);
    assert Fwd(l) == R.Fwd(n) && Bwd(l) == R.Bwd(n);
    var last := |n.relays| - 1;
    GoneWasSent(w.s, Fwd(l), last);
    assert forall f :: f in Fwd(l).sent ==> f.addressed;
    NoneEndToEnd(Fwd(l).gone[last]);
    NoneEndToEnd(Fwd(l).sent);
    FrontAddressed(n.log.recv, n.log.bbook, |n.log.bbook|);
    NoneEndToEnd(B.Front(n.log.recv, n.log.bbook, |n.log.bbook|));
    NoneEndToEnd(n.log.recv);
  }

  lemma ApartGood(s: Suite, wc: R.World, c: R.Net, wh: R.World, h: R.Net, layers: seq<HopState>)
    requires wc.s == wh.s == s && Built(wc, c) && Built(wh, h) && Agreed(layers)
    ensures Good(s, Apart(c, h, layers))
  {
    hide Built, F.Inv, B.Inv, F.Left, B.Entered, Filter;
    var j := Apart(c, h, layers);
    BuiltLine(wc, c);
    BuiltLine(wh, h);
    assert ChannelFrom(s, j, 0);
    assert ChannelFrom(s, j, 1);
  }

  // ── The main result ─────────────────────────────────────────────────

  /** The end-to-end cells from end `x` that have yet to cross the bridge, and those that have and are
      yet to arrive. */
  function Before(j: Joined, x: nat): seq<Flight>
    requires Sound(j) && x < 2 && Whole(j.lines[x])
  {
    Filter(F.InFlight(Fwd(j.lines[x]), |j.lines[x].relays| - 1), EndToEnd)
  }

  function Beyond(j: Joined, x: nat): seq<Flight>
    requires Sound(j) && x < 2 && Whole(j.lines[1 - x])
  {
    var book := j.lines[1 - x].log.bbook;
    Filter(B.Front([], book, |book|), EndToEnd)
  }

  /** What end `x` says arrives unchanged and in order, nothing is made up on the way, and both ends' layers
      agree up to what is in flight. */
  ghost predicate Delivering(j: Joined, x: nat)
    requires Sound(j) && x < 2 && Whole(j.lines[x]) && Whole(j.lines[1 - x])
  {
    var said, heard := j.said[x], j.heard[1 - x];
    var out, into := Out(j.lines[x]), Into(j.lines[1 - x]);
    var key := j.layers[x].forward.key;
    && heard <= said
    && |said| == |heard| + |Beyond(j, x)| + |Before(j, x)|
    && |j.inner[x]| == |said|
    && (if out.None? then said == [] else out.value.key == key && out.value.nonce == Count(|said|))
    && (if into.None? then heard == [] else into.value.key == key && into.value.nonce == Count(|heard|))
    && (out.Some? && into.Some? ==> out.value.digest == into.value.digest + Hist(j.inner[x][|heard|..]))
  }

  /** All or nothing: from the first end-to-end cell of end `x` on every one arrives, or none does. */
  ghost predicate AllOrNothing(j: Joined, x: nat)
    requires Sound(j) && x < 2 && Whole(j.lines[x]) && Whole(j.lines[1 - x])
  {
    if j.lost[x] then j.said[x] != [] && j.heard[1 - x] == [] else Delivering(j, x)
  }

  /** Every hop of the line agrees with its relay up to what is in flight. */
  ghost predicate InStep(l: Line, i: nat)
    requires Whole(l) && i < |l.relays|
  {
    R.HopsAgree(l.origin.hops[i], l.relays[i].hop, l.log.fbook, l.log.bbook, i)
  }

  lemma HealthyInStep(s: Suite, l: Line, i: nat)
    requires Healthy(s, l) && i < |l.relays|
    ensures InStep(l, i)
  {
    hide Hist, Filter, F.Wire, B.Front, F.CellInv, B.CellInv;
    var p, q := Fwd(l), Bwd(l);
    assert F.HopInv(s, p, i) && B.CountInv(q, i) && B.DigestInv(s, q, i);
    R.ForwardLockstep(s, p, i);
    R.BackwardLockstep(s, q, i);
  }

  /** How many end-to-end cells are where. */
  lemma SentIsLeftAndBefore(s: Suite, p: F.Pipe)
    requires F.Inv(s, p) && |p.relays| > 0
    requires forall g :: g in p.sent && !g.addressed ==> g.span == |p.relays|
    ensures |Filter(p.sent, EndToEnd)| == |F.Left(p)| + |Filter(F.InFlight(p, |p.relays| - 1), EndToEnd)|
  {
    hide F.CellInv, F.DigestInv;
    var last := |p.relays| - 1;
    assert F.HopInv(s, p, last);
    F.FilterOfPast(p.sent, last);
    FilterConcat(p.gone[last], F.InFlight(p, last), EndToEnd);
  }

  lemma EnteredIsReceivedAndBeyond(b: B.Pipe)
    requires B.Shape(b)
    ensures |B.Entered(b)| == |Filter(b.recv, EndToEnd)| + |Filter(B.Front([], b.book, |b.book|), EndToEnd)|
  {
    R.FrontSplit(b.recv, b.book, |b.book|);
    FilterConcat(b.recv, B.Front([], b.book, |b.book|), EndToEnd);
  }

  lemma ChannelDelivers(
    s: Suite, bridged: bool, f: F.Pipe, b: B.Pipe, out: Option<Half>, into: Option<Half>, key: Key32, seed: bytes,
    said: seq<RelayCell>, heard: seq<RelayCell>, inner: seq<Flight>)
    requires Channel(s, bridged, f, b, out, into, key, seed, said, heard, inner) && F.Inv(s, f)
    ensures heard <= said && |inner| == |said|
    ensures |said| == |heard| + |Filter(B.Front([], b.book, |b.book|), EndToEnd)|
                     + |Filter(F.InFlight(f, |f.relays| - 1), EndToEnd)|
    ensures if out.None? then said == [] else out.value.key == key && out.value.nonce == Count(|said|)
    ensures if into.None? then heard == [] else into.value.key == key && into.value.nonce == Count(|heard|)
    ensures out.Some? && into.Some? ==> out.value.digest == into.value.digest + Hist(inner[|heard|..])
  {
    hide RecognizedPayload, Layer, R.Word, Filter, F.Left, B.Entered, F.Inv, B.Front, F.Wire, StampedInTurn, F.InFlight, Hist;
    SentIsLeftAndBefore(s, f);
    EnteredIsReceivedAndBeyond(b);
    assert |Plains(F.Left(f))| == |Plains(B.Entered(b))|;
    var n := |Filter(b.recv, EndToEnd)|;
    assert inner == inner[..n] + inner[n..];
    R.HistConcat(inner[..n], inner[n..]);
    assert (seed + Hist(inner[..n])) + Hist(inner[n..]) == seed + (Hist(inner[..n]) + Hist(inner[n..]));
  }

  lemma GoodDelivers(s: Suite, j: Joined, x: nat)
    requires Sound(j) && x < 2 && Whole(j.lines[x]) && Whole(j.lines[1 - x]) && Good(s, j)
    ensures AllOrNothing(j, x)
  {
    hide Channel, Filter, F.Inv, B.Inv, B.Front, F.InFlight, Hist;
    GoodParts(s, j, x);
    var l, other := j.lines[x], j.lines[1 - x];
    if !j.lost[x] {
      ChannelDelivers(s, j.bridged, Fwd(l), Bwd(other), Out(l), Into(other), j.layers[x].forward.key,
                      j.layers[x].forward.digest, j.said[x], j.heard[1 - x], j.inner[x]);
    }
  }

  /** The keys both ends hold after an honest rendezvous handshake. */
  predicate Handshaken(d: Dh, lb: Labels, bSecret: Key32, xPriv: Key32, yPriv: Key32, clientKeys: E2EKeys, hsKeys: E2EKeys) {
    var (keys, y, auth) := HsFinalize(d, lb, bSecret, d.pub(bSecret), d.pub(xPriv), yPriv);
    keys == hsKeys && ClientFinalize(d, lb, xPriv, d.pub(xPriv), d.pub(bSecret), y, auth) == Ok(clientKeys)
  }

  ghost predicate Delivered(j: Joined) {
    && Sound(j) && Whole(j.lines[0]) && Whole(j.lines[1])
    && AllOrNothing(j, 0) && AllOrNothing(j, 1)
    && forall x, i :: 0 <= x < 2 && 0 <= i < |j.lines[x].relays| ==> InStep(j.lines[x], i)
  }

  lemma GoodDelivered(s: Suite, j: Joined)
    requires Good(s, j)
    ensures Delivered(j)
  {
    hide Good, AllOrNothing, InStep, Healthy, Whole, ChannelFrom;
    GoodParts(s, j, 0);
    GoodDelivers(s, j, 0);
    GoodDelivers(s, j, 1);
    forall x, i | 0 <= x < 2 && 0 <= i < |j.lines[x].relays|
      ensures InStep(j.lines[x], i)
    {
      HealthyInStep(s, j.lines[x], i);
    }
  }

  /** The step costs end `x` its first cell: one gets out of a circuit that is not bridged, or comes to an end
      that has no layer yet. */
  ghost predicate Loses(s: Suite, j: Joined, step: Step, x: nat)
    requires Enabled(j, step) && x < 2
  {
    || (step.RelayTakes? && step.x == x && !j.bridged && LineTakes(s, j.lines[x], step.i, step.now).1.Some?)
    || (step.EndReceives? && step.x == 1 - x && j.lines[1 - x].origin.e2e.None? && Unclaimed(s, j.lines[1 - x], step.now))
  }

  /** With the layer on and nothing lost so far, the far end takes what comes. */
  lemma ClaimedExactly(s: Suite, j: Joined, x: nat, now: Instant)
    requires Good(s, j) && Enabled(j, EndReceives(x, now)) && NoMistake(s, j, EndReceives(x, now)) && !j.lost[1 - x]
    ensures j.lines[x].origin.e2e.Some? ==> !Unclaimed(s, j.lines[x], now)
  {
    hide Channel, F.Inv, B.Inv, LineReceives, Whole, B.NotMistaken, ChannelFrom, Unclaimed, Received, Next;
    GoodParts(s, j, x);
    var l := j.lines[x];
    LineReceivesMeaning(s, l, now);
    WholeShapes(l);
    if !l.log.bbook[0][0].addressed && l.origin.e2e.Some? {
      ReceivesGood(s, j, x, now);
    }
  }

  lemma LosesExactly(s: Suite, j: Joined, step: Step, x: nat)
    requires Enabled(j, step) && Good(s, j) && NoMistake(s, j, step) && x < 2
    ensures Sound(Next(s, j, step))
    ensures Next(s, j, step).lost[x] <==> j.lost[x] || Loses(s, j, step, x)
  {
    hide Good, LineTakes, LineCarries, LineSends, LineReceives, LineRelaySends, LinePassesBack, Whole, F.NotMistaken,
         B.NotMistaken, Unclaimed, Stamped;
    assert x == step.x || x == 1 - step.x;
    if step.EndReceives? && !j.lost[1 - step.x] {
      ClaimedExactly(s, j, step.x, step.now);
    }
  }

  ghost predicate NeverLoses(s: Suite, j: Joined, steps: seq<Step>, x: nat)
    requires x < 2
    decreases steps
  {
    steps == [] || (Enabled(j, steps[0]) && !Loses(s, j, steps[0], x) && NeverLoses(s, Next(s, j, steps[0]), steps[1..], x))
  }

  lemma {:induction false} LostInRun(s: Suite, j: Joined, steps: seq<Step>, j': Joined, x: nat)
    requires Good(s, j) && Run(s, j, steps, j') && x < 2
    ensures Sound(j) && Sound(j') && (j'.lost[x] <==> j.lost[x] || !NeverLoses(s, j, steps, x))
    decreases steps
  {
    GoodParts(s, j, x);
    hide Good, NoMistake, Next, Loses, Enabled;
    if steps != [] {
      StepGood(s, j, steps[0]);
      LosesExactly(s, j, steps[0], x);
      LostInRun(s, Next(s, j, steps[0]), steps[1..], j', x);
    }
  }

  lemma HandshakenAgreed(d: Dh, lb: Labels, bSecret: Key32, xPriv: Key32, yPriv: Key32, clientKeys: E2EKeys, hsKeys: E2EKeys)
    requires DhLaw(d) && Handshaken(d, lb, bSecret, xPriv, yPriv, clientKeys, hsKeys)
    ensures Agreed(LayersOf(clientKeys, hsKeys))
  {
    hide ClientFinalize, HsFinalize;
    RendezvousAgreement(d, lb, bSecret, xPriv, yPriv);
  }

  /** Spliced delivery. Take any two built circuits, and let the ends put on their layers, with keys from an
      honest rendezvous handshake, and the rendezvous point bridge the circuits, in any order and with anything
      in between. After any run in which nobody mistakes a cell for his own, every hop of both circuits is in
      step, and in each direction there are two cases. If no cell got out before the bridge was there, or to an
      end whose layer was not yet on, then everything said has arrived, unchanged and in order, but for what is
      still in flight, and the two layers are in step. Otherwise nothing has arrived, nor ever will. */
  lemma SplicedDelivery(
    wc: R.World, c: R.Net, wh: R.World, h: R.Net, d: Dh, lb: Labels, bSecret: Key32, xPriv: Key32, yPriv: Key32,
    clientKeys: E2EKeys, hsKeys: E2EKeys, steps: seq<Step>, j: Joined)
    requires wc.s == wh.s && Built(wc, c) && Built(wh, h)
    requires DhLaw(d) && Handshaken(d, lb, bSecret, xPriv, yPriv, clientKeys, hsKeys)
    requires Run(wc.s, Apart(c, h, LayersOf(clientKeys, hsKeys)), steps, j)
    ensures Delivered(j)
    ensures forall x: nat :: x < 2 ==> (j.lost[x] <==> !NeverLoses(wc.s, Apart(c, h, LayersOf(clientKeys, hsKeys)), steps, x))
  {
    hide Built, Run, Good, Delivered, Handshaken, LayersOf, NeverLoses;
    HandshakenAgreed(d, lb, bSecret, xPriv, yPriv, clientKeys, hsKeys);
    var j0 := Apart(c, h, LayersOf(clientKeys, hsKeys));
    ApartGood(wc.s, wc, c, wh, h, LayersOf(clientKeys, hsKeys));
    RunGood(wc.s, j0, steps, j);
    GoodDelivered(wc.s, j);
    LostInRun(wc.s, j0, steps, j, 0);
    LostInRun(wc.s, j0, steps, j, 1);
  }

  /** Once the links are empty, everything said has been heard exactly if nothing was lost. */
  lemma AllDelivered(j: Joined, x: nat)
    requires Sound(j) && x < 2 && Whole(j.lines[x]) && Whole(j.lines[1 - x]) && AllOrNothing(j, x)
    requires P.Empty(j.lines[x].down) && P.Empty(j.lines[1 - x].up)
    ensures j.heard[1 - x] == j.said[x] <==> !j.lost[x]
    ensures j.lost[x] ==> j.heard[1 - x] == []
  {
    var fbook, bbook := j.lines[x].log.fbook, j.lines[1 - x].log.bbook;
    forall i | 0 <= i < |fbook|
      ensures fbook[i] == []
    {
      assert |Fwd(j.lines[x]).wires[i]| == |Fwd(j.lines[x]).book[i]|;
    }
    forall i | 0 <= i < |bbook|
      ensures bbook[i] == []
    {
      assert |Bwd(j.lines[1 - x]).wires[i]| == |Bwd(j.lines[1 - x]).book[i]|;
    }
    P.WireEmpty(fbook, |fbook| - 1);
    P.WireEmpty(bbook, |bbook| - 1);
    assert B.Front([], bbook, |bbook|) == [] + [];
    assert Filter([], Past(|fbook| - 1)) == [] && Filter([], EndToEnd) == [];
  }
}

/** The backward direction of one circuit: each relay adds its layer, the client takes all of them
    off at once.

    `wires[j]` runs from relay `j` to relay `j - 1`, or to the client when `j` is 0. `book` says what
    each cell is and `recv` lists what the client took off link 0; the handlers see neither. */
module BackwardPipe {
  import opened Bytes
  import opened Circuit
  import opened Flow

  datatype Pipe = Pipe(
    receiver: seq<Half>, relays: seq<Half>, wires: seq<seq<Payload>>,
    book: seq<seq<Flight>>, recv: seq<Flight>, seeds: seq<bytes>)

  // ── The moves of the source ─────────────────────────────────────────

  /** Relay `o` puts its own layer on `plain` and sends it toward the client; `relays1` are the
      relays after stamping. */
  function Emit(s: Suite, p: Pipe, relays1: seq<Half>, o: nat, addressed: bool, plain: Payload): Pipe
    requires o < |p.relays| == |relays1| == |p.wires| == |p.book|
  {
    var (h, q) := Crypt(s, relays1[o], plain);
    p.(relays := relays1[o := h],
       wires := p.wires[o := p.wires[o] + [q]],
       book := p.book[o := p.book[o] + [Flight(o + 1, addressed, [], plain)]])
  }

  /** As `handle_created_from_next` does for EXTENDED2: stamp with the backward digest, then emit. */
  function EmitOwn(s: Suite, p: Pipe, o: nat, rc: RelayCell): Pipe
    requires o < |p.relays| == |p.wires| == |p.book|
  {
    var (rc', digest') := StampDigest(s, rc, p.relays[o].digest);
    Emit(s, p, p.relays[o := p.relays[o].(digest := digest')], o, true, ToPayload(rc'))
  }

  /** `handle_backward_relay` at relay `j`: the head of link `j + 1` gets one more layer. */
  function RelayWrap(s: Suite, p: Pipe, j: nat): Pipe
    requires Shape(p) && j + 1 < |p.wires| && p.wires[j + 1] != []
  {
    var (h, q) := Crypt(s, p.relays[j], p.wires[j + 1][0]);
    p.(relays := p.relays[j := h],
       wires := p.wires[j + 1 := p.wires[j + 1][1..]][j := p.wires[j] + [q]],
       book := p.book[j + 1 := p.book[j + 1][1..]][j := p.book[j] + [p.book[j + 1][0]]])
  }

  /** `decrypt_inbound` at the client, up to its end-to-end layer. */
  function Receive(s: Suite, p: Pipe): (Pipe, Peeled)
    requires Shape(p) && |p.wires| > 0 && p.wires[0] != []
  {
    var r := Peel(s, p.receiver, 0, p.wires[0][0]);
    (p.(receiver := r.hops, wires := p.wires[0 := p.wires[0][1..]],
        book := p.book[0 := p.book[0][1..]], recv := p.recv + [p.book[0][0]]), r)
  }

  function AddRelay(p: Pipe, h: Half): Pipe {
    p.(relays := p.relays + [h], wires := p.wires + [[]], book := p.book + [[]], seeds := p.seeds + [h.digest])
  }

  function AddHop(p: Pipe, h: Half): Pipe {
    p.(receiver := p.receiver + [h])
  }

  // ── Invariant ───────────────────────────────────────────────────────

  predicate Shape(p: Pipe) {
    && |p.receiver| <= |p.relays| == |p.wires| == |p.book| == |p.seeds|
    && forall j :: 0 <= j < |p.wires| ==> |p.wires[j]| == |p.book[j]|
  }

  /** Everything received or nearer the client than link `j`, oldest first. */
  function Front(recv: seq<Flight>, book: seq<seq<Flight>>, j: nat): seq<Flight>
    requires j <= |book|
  {
    if j == 0 then recv else Front(recv, book, j - 1) + book[j - 1]
  }

  /** Everything relay `i` ever put its layer on. */
  function Wrapped(p: Pipe, i: nat): seq<Flight>
    requires Shape(p) && i < |p.relays|
  {
    Filter(Front(p.recv, p.book, i + 1), Past(i))
  }

  /** The counters the next cell after `ahead` wears, hop by hop. */
  function NoncesAfter(ahead: seq<Flight>, n: nat): (r: seq<u64>)
    ensures |r| == n
  {
    seq(n, i requires 0 <= i < n => Count(|Filter(ahead, Past(i))|))
  }

  /** Hop `i` and the client share a key, and their counters differ by the cells in flight. */
  ghost predicate CountInv(p: Pipe, i: nat)
    requires Shape(p) && i < |p.relays|
  {
    && p.relays[i].nonce == Count(|Wrapped(p, i)|)
    && (i < |p.receiver| ==>
      && p.receiver[i].key == p.relays[i].key
      && p.receiver[i].nonce == Count(|Filter(p.recv, Past(i))|))
  }

  /** Their digests differ by hop `i`'s own cells in flight. */
  ghost predicate DigestInv(s: Suite, p: Pipe, i: nat)
    requires Shape(p) && i < |p.relays|
  {
    var own := Filter(Front(p.recv, p.book, i + 1), To(i));
    && p.relays[i].digest == p.seeds[i] + Hist(own)
    && StampedInTurn(s, p.seeds[i], own)
    && (i < |p.receiver| ==> p.receiver[i].digest == p.seeds[i] + Hist(Filter(p.recv, To(i))))
  }

  /** The cell with flight `f` on link `j`, behind `ahead`, is well formed. */
  predicate CellInv(s: Suite, p: Pipe, j: nat, ahead: seq<Flight>, f: Flight, cell: Payload) {
    && j < f.span <= |p.receiver|
    && (!f.addressed ==> f.span == |p.relays|)
    && cell == Layers(s, Keys(p.receiver), NoncesAfter(ahead, f.span), j, f.span, f.plain)
  }

  function Ahead(p: Pipe, j: nat, k: nat): seq<Flight>
    requires Shape(p) && j < |p.book| && k <= |p.book[j]|
  {
    Front(p.recv, p.book, j) + p.book[j][..k]
  }

  ghost predicate Inv(s: Suite, p: Pipe) {
    && Shape(p)
    && (forall f :: f in p.recv ==> f.span <= |p.receiver|)
    && (forall i :: 0 <= i < |p.relays| ==> CountInv(p, i) && DigestInv(s, p, i))
    && (forall j, k :: 0 <= j < |p.wires| && 0 <= k < |p.wires[j]| ==>
      CellInv(s, p, j, Ahead(p, j, k), p.book[j][k], p.wires[j][k]))
  }

  // ── Links ───────────────────────────────────────────────────────────

  lemma {:induction false} FrontSame(recv: seq<Flight>, book: seq<seq<Flight>>, book': seq<seq<Flight>>, j: nat)
    requires j <= |book| && j <= |book'| && forall k :: 0 <= k < j ==> book[k] == book'[k]
    ensures Front(recv, book, j) == Front(recv, book', j)
  {
    if j > 0 {
      FrontSame(recv, book, book', j - 1);
    }
  }

  /** Appending `f` to link `o` is seen just beyond it, and by no selection that skips `f`. */
  lemma {:induction false} FrontAppend(recv: seq<Flight>, book: seq<seq<Flight>>, o: nat, f: Flight, j: nat, sel: Selector)
    requires o < |book| && j <= |book|
    ensures var book' := book[o := book[o] + [f]];
            && (j <= o ==> Front(recv, book', j) == Front(recv, book, j))
            && (j == o + 1 ==> Front(recv, book', j) == Front(recv, book, j) + [f])
            && (j > o && !Picks(sel, f) ==> Filter(Front(recv, book', j), sel) == Filter(Front(recv, book, j), sel))
  {
    var book' := book[o := book[o] + [f]];
    if j <= o {
      FrontSame(recv, book, book', j);
    } else if j == o + 1 {
      FrontSame(recv, book, book', o);
      var w := Front(recv, book, o);
      assert w + (book[o] + [f]) == (w + book[o]) + [f];
      FilterConcat(w + book[o], [f], sel);
      FilterOne(f, sel);
      assert Filter(w + book[o], sel) + [] == Filter(w + book[o], sel);
    } else {
      FrontAppend(recv, book, o, f, j - 1, sel);
      FilterConcat(Front(recv, book, j - 1), book[j - 1], sel);
      FilterConcat(Front(recv, book', j - 1), book[j - 1], sel);
    }
  }

  /** Moving the head of link `j + 1` to the tail of link `j` is seen from link `j + 1` only. */
  lemma {:induction false} FrontMove(recv: seq<Flight>, book: seq<seq<Flight>>, j: nat, i: nat)
    requires j + 1 < |book| && i <= |book| && book[j + 1] != []
    ensures var book' := book[j + 1 := book[j + 1][1..]][j := book[j] + [book[j + 1][0]]];
            Front(recv, book', i) == Front(recv, book, i) + (if i == j + 1 then [book[j + 1][0]] else [])
  {
    var f := book[j + 1][0];
    var book' := book[j + 1 := book[j + 1][1..]][j := book[j] + [f]];
    if i <= j {
      FrontSame(recv, book, book', i);
      assert Front(recv, book, i) + [] == Front(recv, book, i);
    } else {
      FrontMove(recv, book, j, i - 1);
      var w := Front(recv, book, i - 1);
      if i == j + 1 {
        assert (w + []) + (book[j] + [f]) == (w + book[j]) + [f];
      } else if i == j + 2 {
        assert (w + [f]) + book[j + 1][1..] == (w + book[j + 1]) + [];
      } else {
        assert (w + []) + book[i - 1] == (w + book[i - 1]) + [];
      }
    }
  }

  /** Receiving the head of link 0 is seen from nowhere beyond it. */
  lemma {:induction false} FrontReceive(recv: seq<Flight>, book: seq<seq<Flight>>, i: nat)
    requires 0 < |book| && i <= |book| && book[0] != []
    ensures Front(recv + [book[0][0]], book[0 := book[0][1..]], i)
         == Front(recv, book, i) + (if i == 0 then [book[0][0]] else [])
  {
    var f := book[0][0];
    if i > 0 {
      FrontReceive(recv, book, i - 1);
      var w := Front(recv, book, i - 1);
      if i == 1 {
        assert (recv + [f]) + book[0][1..] == (recv + book[0]) + [];
      } else {
        assert (w + []) + book[i - 1] == (w + book[i - 1]) + [];
      }
    }
  }

  lemma FilterSnoc(fs: seq<Flight>, f: Flight, sel: Selector)
    ensures Filter(fs + [f], sel) == Filter(fs, sel) + (if Picks(sel, f) then [f] else [])
  {
    FilterConcat(fs, [f], sel);
    FilterOne(f, sel);
  }

  // ── Preservation: a relay sends a cell ──────────────────────────────

  /** What stamping must have done before the relay's own layer goes on. */
  predicate Stamped(s: Suite, p: Pipe, relays1: seq<Half>, o: nat, addressed: bool, plain: Payload)
    requires o < |p.relays|
  {
    if addressed then
      && RecognizedPayload(s, plain, p.relays[o].digest)
      && relays1 == p.relays[o := p.relays[o].(digest := p.relays[o].digest + Blank(plain))]
    else
      relays1 == p.relays && o + 1 == |p.relays|
  }

  /** The parts of a pipe that relay `o` sending `f` changes. */
  ghost predicate Emitted(p: Pipe, p': Pipe, o: nat, f: Flight) {
    && Shape(p) && Shape(p') && o < |p.receiver| && |p'.relays| == |p.relays|
    && f.span == o + 1
    && p'.receiver == p.receiver && p'.recv == p.recv && p'.seeds == p.seeds
    && p'.book == p.book[o := p.book[o] + [f]]
  }

  lemma EmitCount(p: Pipe, p': Pipe, o: nat, f: Flight, i: nat)
    requires Emitted(p, p', o, f) && i < |p.relays| && CountInv(p, i)
    requires p'.relays[i].key == p.relays[i].key
    requires p'.relays[i].nonce == if i == o then WrapSucc(p.relays[i].nonce) else p.relays[i].nonce
    ensures CountInv(p', i)
  {
    FrontAppend(p.recv, p.book, o, f, i + 1, Past(i));
    if i == o {
      FilterSnoc(Front(p.recv, p.book, i + 1), f, Past(i));
      CountSucc(|Wrapped(p, i)|);
    }
  }

  lemma EmitDigest(s: Suite, p: Pipe, p': Pipe, o: nat, f: Flight, i: nat)
    requires Emitted(p, p', o, f) && i < |p.relays| && DigestInv(s, p, i)
    requires Picks(To(i), f) ==>
      && RecognizedPayload(s, f.plain, p.relays[i].digest)
      && p'.relays[i].digest == p.relays[i].digest + Blank(f.plain)
    requires !Picks(To(i), f) ==> p'.relays[i].digest == p.relays[i].digest
    ensures DigestInv(s, p', i)
  {
    hide RecognizedPayload, Blank, Hist, Filter, Front, StampedInTurn;
    var front := Front(p.recv, p.book, i + 1);
    FrontAppend(p.recv, p.book, o, f, i + 1, To(i));
    if i == o {
      FilterSnoc(front, f, To(i));
      if f.addressed {
        StampedSnoc(s, p.seeds[i], Filter(front, To(i)), f);
      } else {
        assert Filter(front, To(i)) + [] == Filter(front, To(i));
      }
    }
  }

  lemma EmitCell(s: Suite, p: Pipe, p': Pipe, o: nat, f: Flight, j: nat, k: nat)
    requires Emitted(p, p', o, f) && CountInv(p, o)
    requires !f.addressed ==> f.span == |p.relays|
    requires p'.wires == p.wires[o := p.wires[o] + [Layer(s, p.relays[o].key, p.relays[o].nonce, f.plain)]]
    requires j < |p'.wires| && k < |p'.wires[j]|
    requires k < |p.wires[j]| ==> CellInv(s, p, j, Ahead(p, j, k), p.book[j][k], p.wires[j][k])
    ensures CellInv(s, p', j, Ahead(p', j, k), p'.book[j][k], p'.wires[j][k])
  {
    if k < |p.wires[j]| {
      var g := p.book[j][k];
      var ahead, ahead' := Ahead(p, j, k), Ahead(p', j, k);
      assert p'.book[j][..k] == p.book[j][..k];
      forall i | j <= i < g.span
        ensures Filter(ahead', Past(i)) == Filter(ahead, Past(i))
      {
        FrontAppend(p.recv, p.book, o, f, j, Past(i));
        FilterConcat(Front(p.recv, p.book, j), p.book[j][..k], Past(i));
        FilterConcat(Front(p.recv, p'.book, j), p.book[j][..k], Past(i));
      }
      LayersFrame(s, Keys(p.receiver), NoncesAfter(ahead, g.span), Keys(p.receiver), NoncesAfter(ahead', g.span),
                  j, g.span, g.plain);
    } else {
      assert p'.book[o][..k] == p.book[o];
      FrontAppend(p.recv, p.book, o, f, o, Past(o));
      assert Ahead(p', o, k) == Front(p.recv, p.book, o + 1);
      var nonces := NoncesAfter(Ahead(p', o, k), o + 1);
      assert Layers(s, Keys(p.receiver), nonces, o + 1, o + 1, f.plain) == f.plain;
      assert Layers(s, Keys(p.receiver), nonces, o, o + 1, f.plain) == Layer(s, p.relays[o].key, nonces[o], f.plain);
    }
  }

  lemma EmitPreserves(s: Suite, p: Pipe, relays1: seq<Half>, o: nat, addressed: bool, plain: Payload)
    requires Inv(s, p) && o < |p.receiver| && Stamped(s, p, relays1, o, addressed, plain)
    ensures Inv(s, Emit(s, p, relays1, o, addressed, plain))
  {
    var p' := Emit(s, p, relays1, o, addressed, plain);
    var f := Flight(o + 1, addressed, [], plain);
    forall i | 0 <= i < |p'.relays|
      ensures CountInv(p', i) && DigestInv(s, p', i)
    {
      EmitCount(p, p', o, f, i);
      EmitDigest(s, p, p', o, f, i);
    }
    forall j, k | 0 <= j < |p'.wires| && 0 <= k < |p'.wires[j]|
      ensures CellInv(s, p', j, Ahead(p', j, k), p'.book[j][k], p'.wires[j][k])
    {
      EmitCell(s, p, p', o, f, j, k);
    }
  }

  // ── Preservation: a relay adds its layer ────────────────────────────

  lemma WrapCount(s: Suite, p: Pipe, j: nat, i: nat)
    requires Shape(p) && j + 1 < |p.wires| && p.wires[j + 1] != [] && i < |p.relays|
    requires CountInv(p, i) && p.book[j + 1][0].span > j + 1
    ensures var p' := RelayWrap(s, p, j);
            Shape(p') && CountInv(p', i)
  {
    var front := Front(p.recv, p.book, i + 1);
    FrontMove(p.recv, p.book, j, i + 1);
    if i == j {
      FilterSnoc(front, p.book[j + 1][0], Past(i));
      CountSucc(|Wrapped(p, i)|);
    } else {
      assert front + [] == front;
    }
  }

  lemma WrapDigest(s: Suite, p: Pipe, j: nat, i: nat)
    requires Shape(p) && j + 1 < |p.wires| && p.wires[j + 1] != [] && i < |p.relays|
    requires DigestInv(s, p, i) && p.book[j + 1][0].span > j + 1
    ensures var p' := RelayWrap(s, p, j);
            Shape(p') && DigestInv(s, p', i)
  {
    hide RecognizedPayload, Blank, Hist, Filter, Front, StampedInTurn, Layer;
    var front := Front(p.recv, p.book, i + 1);
    var p' := RelayWrap(s, p, j);
    FrontMove(p.recv, p.book, j, i + 1);
    if i == j {
      FilterSnoc(front, p.book[j + 1][0], To(i));
      assert Filter(front, To(i)) + [] == Filter(front, To(i));
    } else {
      assert front + [] == front;
    }
    assert Filter(Front(p'.recv, p'.book, i + 1), To(i)) == Filter(front, To(i));
  }

  /** Every cell on a link after the move was there before, or is the head with one more layer. */
  lemma WrapWires(s: Suite, p: Pipe, j: nat, l: nat, k: nat)
    requires Shape(p) && j + 1 < |p.wires| && p.wires[j + 1] != []
    requires var p' := RelayWrap(s, p, j); l < |p'.wires| && k < |p'.wires[l]|
    ensures var p' := RelayWrap(s, p, j);
            && Shape(p') && p'.receiver == p.receiver && |p'.relays| == |p.relays|
            && (l == j + 1 ==>
              && k + 1 < |p.wires[l]| && p'.wires[l][k] == p.wires[l][k + 1] && p'.book[l][k] == p.book[l][k + 1]
              && Ahead(p', l, k) == Ahead(p, l, k + 1))
            && (l != j + 1 && k < |p.wires[l]| ==>
              && p'.wires[l][k] == p.wires[l][k] && p'.book[l][k] == p.book[l][k]
              && Ahead(p', l, k) == Ahead(p, l, k))
            && (l != j + 1 && k >= |p.wires[l]| ==>
              && l == j && p'.book[l][k] == p.book[j + 1][0] && Ahead(p', l, k) == Ahead(p, j + 1, 0)
              && p'.wires[l][k] == Layer(s, p.relays[j].key, p.relays[j].nonce, p.wires[j + 1][0]))
  {
    var p' := RelayWrap(s, p, j);
    var f := p.book[j + 1][0];
    FrontMove(p.recv, p.book, j, l);
    var front := Front(p.recv, p.book, l);
    if l == j + 1 {
      assert [f] + p.book[l][1..][..k] == p.book[l][..k + 1];
      assert (front + [f]) + p.book[l][1..][..k] == front + p.book[l][..k + 1];
    } else {
      assert front + [] == front;
      assert k < |p.wires[l]| ==> p'.book[l][..k] == p.book[l][..k];
      if k >= |p.wires[l]| {
        assert p'.book[j][..k] == p.book[j];
        assert Ahead(p, j + 1, 0) == Front(p.recv, p.book, j + 1);
      }
    }
  }

  lemma WrapCell(s: Suite, p: Pipe, j: nat, l: nat, k: nat)
    requires Inv(s, p) && j + 1 < |p.wires| && p.wires[j + 1] != []
    requires var p' := RelayWrap(s, p, j); l < |p'.wires| && k < |p'.wires[l]|
    ensures var p' := RelayWrap(s, p, j);
            Shape(p') && CellInv(s, p', l, Ahead(p', l, k), p'.book[l][k], p'.wires[l][k])
  {
    hide RecognizedPayload, Hist, Layer, Filter;
    WrapWires(s, p, j, l, k);
    if l == j + 1 {
      assert CellInv(s, p, l, Ahead(p, l, k + 1), p.book[l][k + 1], p.wires[l][k + 1]);
    } else if k < |p.wires[l]| {
      assert CellInv(s, p, l, Ahead(p, l, k), p.book[l][k], p.wires[l][k]);
    } else {
      assert CellInv(s, p, j + 1, Ahead(p, j + 1, 0), p.book[j + 1][0], p.wires[j + 1][0]);
      assert CountInv(p, j);
      assert Ahead(p, j + 1, 0) == Front(p.recv, p.book, j + 1);
    }
  }

  lemma WrapPreserves(s: Suite, p: Pipe, j: nat)
    requires Inv(s, p) && j + 1 < |p.wires| && p.wires[j + 1] != []
    ensures Inv(s, RelayWrap(s, p, j))
  {
    hide RecognizedPayload, Hist, Layer, Filter, Front;
    var p' := RelayWrap(s, p, j);
    assert CellInv(s, p, j + 1, Ahead(p, j + 1, 0), p.book[j + 1][0], p.wires[j + 1][0]);
    forall i | 0 <= i < |p'.relays|
      ensures Shape(p') && CountInv(p', i) && DigestInv(s, p', i)
    {
      assert CountInv(p, i) && DigestInv(s, p, i);
      WrapCount(s, p, j, i);
      WrapDigest(s, p, j, i);
    }
    forall l, k | 0 <= l < |p'.wires| && 0 <= k < |p'.wires[l]|
      ensures CellInv(s, p', l, Ahead(p', l, k), p'.book[l][k], p'.wires[l][k])
    {
      WrapCell(s, p, j, l, k);
    }
  }

  // ── Preservation: the client receives ───────────────────────────────

  /** The hypothesis for one receipt: no hop but the sender takes the peeled cell for its own, and
      none at all takes an end-to-end cell. */
  ghost predicate NotMistaken(s: Suite, p: Pipe)
    requires Shape(p) && |p.wires| > 0 && p.wires[0] != []
  {
    var f := p.book[0][0];
    && 0 < f.span <= |p.receiver|
    && NoMisrecognition(s, Keys(p.receiver), p.receiver, 0, f.span, NoncesAfter(p.recv, f.span), f.plain)
    && (!f.addressed ==> !RecognizedPayload(s, f.plain, p.receiver[f.span - 1].digest))
  }

  /** The head of link 0 wears the client's own counters, and was stamped for its history. */
  lemma HeadIsNext(s: Suite, p: Pipe)
    requires Inv(s, p) && |p.wires| > 0 && p.wires[0] != []
    ensures var f := p.book[0][0];
            && 0 < f.span <= |p.receiver|
            && p.wires[0][0] == Layers(s, Keys(p.receiver), NoncesAfter(p.recv, f.span), 0, f.span, f.plain)
            && (forall i :: 0 <= i < f.span ==> NoncesAfter(p.recv, f.span)[i] == p.receiver[i].nonce)
            && (f.addressed ==> RecognizedPayload(s, f.plain, p.receiver[f.span - 1].digest))
  {
    var f := p.book[0][0];
    assert Ahead(p, 0, 0) == p.recv;
    assert CellInv(s, p, 0, Ahead(p, 0, 0), f, p.wires[0][0]);
    forall i | 0 <= i < f.span
      ensures NoncesAfter(p.recv, f.span)[i] == p.receiver[i].nonce
    {
      assert CountInv(p, i);
    }
    if f.addressed {
      assert DigestInv(s, p, f.span - 1);
      HeadIsOwn(s, p, f.span - 1);
    }
  }

  /** The next of hop `o`'s cells to arrive was stamped for the client's history. */
  lemma HeadIsOwn(s: Suite, p: Pipe, o: nat)
    requires Shape(p) && o < |p.receiver| && DigestInv(s, p, o)
    requires p.book[0] != [] && Picks(To(o), p.book[0][0])
    ensures RecognizedPayload(s, p.book[0][0].plain, p.receiver[o].digest)
  {
    hide RecognizedPayload, Hist, Filter, StampedInTurn;
    var f := p.book[0][0];
    FrontPrefix(p.recv, p.book, o + 1);
    var all := Front(p.recv, p.book, o + 1);
    var rest := all[|p.recv| + 1..];
    assert all == (p.recv + [f]) + rest;
    NextOwn(s, p.seeds[o], p.recv, f, rest, o);
  }

  lemma NextOwn(s: Suite, seed: bytes, before: seq<Flight>, f: Flight, rest: seq<Flight>, o: nat)
    requires Picks(To(o), f) && StampedInTurn(s, seed, Filter((before + [f]) + rest, To(o)))
    ensures RecognizedPayload(s, f.plain, seed + Hist(Filter(before, To(o))))
  {
    hide RecognizedPayload, Hist;
    var mine := Filter(before, To(o));
    FilterConcat(before + [f], rest, To(o));
    FilterSnoc(before, f, To(o));
    var own := Filter((before + [f]) + rest, To(o));
    assert own[..|mine|] == mine && own[|mine|] == f;
  }

  lemma {:induction false} FrontPrefix(recv: seq<Flight>, book: seq<seq<Flight>>, j: nat)
    requires 0 < j <= |book| && book[0] != []
    ensures |recv| < |Front(recv, book, j)|
    ensures Front(recv, book, j)[..|recv| + 1] == recv + [book[0][0]]
  {
    if j > 1 {
      FrontPrefix(recv, book, j - 1);
    } else {
      assert Front(recv, book, 1) == recv + book[0];
    }
  }

  /** The client identifies exactly the relay that sent the cell and reads exactly what it sent; an
      end-to-end cell comes out fully peeled and recognized by nobody. Counters beyond the sender do
      not move. */
  lemma ReceiveOutcome(s: Suite, p: Pipe)
    requires Inv(s, p) && |p.wires| > 0 && p.wires[0] != [] && NotMistaken(s, p)
    ensures var f := p.book[0][0];
            var (p', r) := Receive(s, p);
            && 0 < f.span
            && r.payload == f.plain && r.recognized == f.addressed
            && (f.addressed ==> r.hop == f.span - 1)
            && CrossedRange(p.receiver, p'.receiver, 0, f.span, f.addressed, f.plain)
  {
    var f := p.book[0][0];
    HeadIsNext(s, p);
    assert CellInv(s, p, 0, Ahead(p, 0, 0), f, p.wires[0][0]);
    PeelMeaning(s, Keys(p.receiver), p.receiver, 0, f.span, NoncesAfter(p.recv, f.span), f.plain);
  }

  /** The parts of a pipe that receiving the head of link 0 changes. */
  ghost predicate Received(p: Pipe, p': Pipe) {
    && Shape(p) && Shape(p') && |p.wires| > 0 && p.wires[0] != []
    && var f := p.book[0][0];
    && 0 < f.span <= |p.receiver|
    && CrossedRange(p.receiver, p'.receiver, 0, f.span, f.addressed, f.plain)
    && p'.recv == p.recv + [f]
    && p'.relays == p.relays && p'.seeds == p.seeds && p'.book == p.book[0 := p.book[0][1..]]
  }

  lemma ReceiveCount(p: Pipe, p': Pipe, i: nat)
    requires Received(p, p') && i < |p.relays| && CountInv(p, i)
    ensures CountInv(p', i)
  {
    hide Hist, Blank, Front;
    var f := p.book[0][0];
    var through := Filter(p.recv, Past(i));
    FrontReceive(p.recv, p.book, i + 1);
    assert Front(p.recv, p.book, i + 1) + [] == Front(p.recv, p.book, i + 1);
    FilterSnoc(p.recv, f, Past(i));
    CountSucc(|through|);
    assert through + [] == through;
  }

  lemma ReceiveDigest(s: Suite, p: Pipe, p': Pipe, i: nat)
    requires Received(p, p') && i < |p.relays| && DigestInv(s, p, i)
    ensures DigestInv(s, p', i)
  {
    hide RecognizedPayload, Filter, Hist, Blank, Front;
    var front := Front(p.recv, p.book, i + 1);
    FrontReceive(p.recv, p.book, i + 1);
    assert front + [] == front;
    HistFilterSnoc(p.seeds[i], p.recv, p.book[0][0], i);
  }

  lemma ReceiveCell(s: Suite, p: Pipe, p': Pipe, l: nat, k: nat)
    requires Shape(p) && Shape(p') && |p.wires| > 0 && p.wires[0] != []
    requires |p'.receiver| == |p.receiver| && Keys(p'.receiver) == Keys(p.receiver) && |p'.relays| == |p.relays|
    requires p'.wires == p.wires[0 := p.wires[0][1..]] && p'.book == p.book[0 := p.book[0][1..]]
    requires p'.recv == p.recv + [p.book[0][0]]
    requires l < |p'.wires| && k < |p'.wires[l]|
    requires var k0 := if l == 0 then k + 1 else k;
             CellInv(s, p, l, Ahead(p, l, k0), p.book[l][k0], p.wires[l][k0])
    ensures CellInv(s, p', l, Ahead(p', l, k), p'.book[l][k], p'.wires[l][k])
  {
    var f := p.book[0][0];
    FrontReceive(p.recv, p.book, l);
    if l == 0 {
      assert [f] + p.book[0][1..][..k] == p.book[0][..k + 1];
      assert (p.recv + [f]) + p.book[0][1..][..k] == p.recv + p.book[0][..k + 1];
    } else {
      assert Front(p.recv, p.book, l) + [] == Front(p.recv, p.book, l);
    }
  }

  lemma ReceivePreserves(s: Suite, p: Pipe)
    requires Inv(s, p) && |p.wires| > 0 && p.wires[0] != [] && NotMistaken(s, p)
    ensures Inv(s, Receive(s, p).0)
  {
    var (p', r) := Receive(s, p);
    ReceiveOutcome(s, p);
    assert Shape(p');
    assert Keys(p'.receiver) == Keys(p.receiver);
    forall i | 0 <= i < |p'.relays|
      ensures CountInv(p', i) && DigestInv(s, p', i)
    {
      ReceiveCount(p, p', i);
      ReceiveDigest(s, p, p', i);
    }
    forall l, k | 0 <= l < |p'.wires| && 0 <= k < |p'.wires[l]|
      ensures CellInv(s, p', l, Ahead(p', l, k), p'.book[l][k], p'.wires[l][k])
    {
      var k0 := if l == 0 then k + 1 else k;
      assert CellInv(s, p, l, Ahead(p, l, k0), p.book[l][k0], p.wires[l][k0]);
      ReceiveCell(s, p, p', l, k);
    }
  }

  // ── Preservation: a growing chain ───────────────────────────────────

  lemma {:induction false} FrontSpans(s: Suite, p: Pipe, j: nat, f: Flight)
    requires Inv(s, p) && j <= |p.book| && f in Front(p.recv, p.book, j)
    ensures f.span <= |p.receiver|
  {
    if f !in p.recv {
      if f in p.book[j - 1] {
        var k :| 0 <= k < |p.book[j - 1]| && p.book[j - 1][k] == f;
        assert CellInv(s, p, j - 1, Ahead(p, j - 1, k), p.book[j - 1][k], p.wires[j - 1][k]);
      } else {
        FrontSpans(s, p, j - 1, f);
      }
    }
  }

  /** Nothing has crossed a hop the client does not know. */
  lemma NothingBeyond(s: Suite, p: Pipe, j: nat, i: nat)
    requires Inv(s, p) && j <= |p.book| && i >= |p.receiver|
    ensures Filter(Front(p.recv, p.book, j), Past(i)) == [] && Filter(Front(p.recv, p.book, j), To(i)) == []
    ensures Filter(p.recv, Past(i)) == [] && Filter(p.recv, To(i)) == []
  {
    forall f | f in Front(p.recv, p.book, j)
      ensures f.span <= |p.receiver|
    {
      FrontSpans(s, p, j, f);
    }
    FilterNone(Front(p.recv, p.book, j), Past(i));
    FilterNone(Front(p.recv, p.book, j), To(i));
    FilterNone(p.recv, Past(i));
    FilterNone(p.recv, To(i));
  }

  lemma AddRelayPreserves(s: Suite, p: Pipe, h: Half)
    requires Inv(s, p) && |p.receiver| == |p.relays| && h.nonce == 0
    requires forall j, k :: 0 <= j < |p.book| && 0 <= k < |p.book[j]| ==> p.book[j][k].addressed
    ensures Inv(s, AddRelay(p, h))
  {
    hide RecognizedPayload, Layer;
    var n := |p.relays|;
    var p' := AddRelay(p, h);
    assert Shape(p');
    forall i | 0 <= i < |p'.relays|
      ensures CountInv(p', i) && DigestInv(s, p', i)
    {
      if i < n {
        assert CountInv(p, i) && DigestInv(s, p, i);
        FrontSame(p.recv, p.book, p'.book, i + 1);
      } else {
        FrontSame(p.recv, p.book, p'.book, n);
        var front := Front(p.recv, p.book, n);
        assert Front(p'.recv, p'.book, n + 1) == front + [] == front;
        NothingBeyond(s, p, n, n);
        assert p'.seeds[n] + [] == p'.seeds[n];
      }
    }
    forall j, k | 0 <= j < |p'.wires| && 0 <= k < |p'.wires[j]|
      ensures CellInv(s, p', j, Ahead(p', j, k), p'.book[j][k], p'.wires[j][k])
    {
      assert CellInv(s, p, j, Ahead(p, j, k), p.book[j][k], p.wires[j][k]);
      FrontSame(p.recv, p.book, p'.book, j);
    }
  }

  lemma AddHopPreserves(s: Suite, p: Pipe)
    requires Inv(s, p) && |p.receiver| < |p.relays|
    requires var n := |p.receiver|; p.relays[n].nonce == 0 && p.relays[n].digest == p.seeds[n]
    ensures Inv(s, AddHop(p, p.relays[|p.receiver|]))
  {
    hide RecognizedPayload, Layer;
    var n := |p.receiver|;
    var p' := AddHop(p, p.relays[n]);
    assert Shape(p');
    forall i | 0 <= i < |p'.relays|
      ensures CountInv(p', i) && DigestInv(s, p', i)
    {
      assert CountInv(p, i) && DigestInv(s, p, i);
      if i == n {
        NothingBeyond(s, p, n, n);
        assert p.seeds[n] + [] == p.seeds[n];
      }
    }
    forall j, k | 0 <= j < |p'.wires| && 0 <= k < |p'.wires[j]|
      ensures CellInv(s, p', j, Ahead(p', j, k), p'.book[j][k], p'.wires[j][k])
    {
      var f := p.book[j][k];
      var nonces := NoncesAfter(Ahead(p, j, k), f.span);
      assert CellInv(s, p, j, Ahead(p, j, k), f, p.wires[j][k]);
      LayersFrame(s, Keys(p.receiver), nonces, Keys(p'.receiver), nonces, j, f.span, f.plain);
    }
  }

  // ── Cells on their way through ──────────────────────────────────────

  /** Everything the last relay ever put in that was meant for no hop, in order: what the client has
      taken, then what is still on the links. */
  function Entered(p: Pipe): seq<Flight>
    requires Shape(p)
  {
    Filter(Front(p.recv, p.book, |p.book|), EndToEnd)
  }

  lemma EmitEntered(s: Suite, p: Pipe, relays1: seq<Half>, o: nat, addressed: bool, plain: Payload)
    requires Shape(p) && o < |p.relays| == |relays1| && (!addressed ==> o + 1 == |p.relays|)
    ensures var p' := Emit(s, p, relays1, o, addressed, plain);
            && Shape(p') && p'.recv == p.recv
            && Entered(p') == Entered(p) + (if addressed then [] else [Flight(o + 1, false, [], plain)])
  {
    var f := Flight(o + 1, addressed, [], plain);
    FrontAppend(p.recv, p.book, o, f, |p.book|, EndToEnd);
    if addressed {
      FilterSnoc(Front(p.recv, p.book, |p.book|), f, EndToEnd);
      assert Entered(p) + [] == Entered(p);
    } else {
      FilterSnoc(Front(p.recv, p.book, |p.book|), f, EndToEnd);
    }
  }

  lemma WrapEntered(s: Suite, p: Pipe, j: nat)
    requires Shape(p) && j + 1 < |p.wires| && p.wires[j + 1] != []
    ensures var p' := RelayWrap(s, p, j); Shape(p') && p'.recv == p.recv && Entered(p') == Entered(p)
  {
    var p' := RelayWrap(s, p, j);
    FrontMove(p.recv, p.book, j, |p.book|);
    assert Front(p.recv, p.book, |p.book|) + [] == Front(p.recv, p.book, |p.book|);
  }

  lemma ReceiveEntered(s: Suite, p: Pipe)
    requires Shape(p) && |p.wires| > 0 && p.wires[0] != []
    ensures var p' := Receive(s, p).0; Shape(p') && Entered(p') == Entered(p)
    ensures Filter(p.recv, EndToEnd) <= Entered(p)
    ensures !p.book[0][0].addressed ==>
      var n := |Filter(p.recv, EndToEnd)|; n < |Entered(p)| && Entered(p)[n] == p.book[0][0]
  {
    var f := p.book[0][0];
    var p' := Receive(s, p).0;
    var all := Front(p.recv, p.book, |p.book|);
    FrontReceive(p.recv, p.book, |p.book|);
    assert all + [] == all;
    FrontPrefix(p.recv, p.book, |p.book|);
    var rest := all[|p.recv| + 1..];
    assert all == (p.recv + [f]) + rest;
    FilterConcat(p.recv + [f], rest, EndToEnd);
    FilterSnoc(p.recv, f, EndToEnd);
    assert p'.recv == p.recv + [f];
  }
}

/** The forward direction of one circuit: a client that puts on every layer at once, and a chain of
    relays joined by first-in first-out links that each take one off.

    `sender` holds the client's forward state for the hops it knows; `relays` the relays' own. The
    other fields but `wires` are bookkeeping: `book` says what each cell on `wires` is, `sent` is
    everything the client ever sent, `gone[i]` everything relay `i` ever took off its link. */
module ForwardPipe {
  import opened Bytes
  import opened Circuit
  import opened Flow

  datatype Pipe = Pipe(
    sender: seq<Half>, relays: seq<Half>, wires: seq<seq<Payload>>,
    book: seq<seq<Flight>>, sent: seq<Flight>, gone: seq<seq<Flight>>, seeds: seq<bytes>)

  datatype Outcome = Handled(cell: RelayCell) | Passed | Exited(payload: Payload)

  // ── The two moves of the source ─────────────────────────────────────

  /** `encrypt_outbound` for a payload already stamped, `sender1` being the hops after stamping. */
  function Send(s: Suite, p: Pipe, sender1: seq<Half>, span: nat, addressed: bool, plain: Payload): Pipe
    requires 0 < span <= |p.sender| == |sender1| && |p.wires| > 0 && |p.book| > 0
  {
    var (sender', cell) := WrapAll(s, sender1, span, plain);
    var f := Flight(span, addressed, Nonces(p.sender)[..span], plain);
    p.(sender := sender', wires := p.wires[0 := p.wires[0] + [cell]],
       book := p.book[0 := p.book[0] + [f]], sent := p.sent + [f])
  }

  /** `encrypt_outbound` without an end-to-end layer: stamp for `target`, then wrap. */
  function SendTo(s: Suite, p: Pipe, target: nat, rc: RelayCell): Pipe
    requires target < |p.sender| && |p.wires| > 0 && |p.book| > 0
  {
    var (rc', digest') := StampDigest(s, rc, p.sender[target].digest);
    Send(s, p, p.sender[target := p.sender[target].(digest := digest')], target + 1, true, ToPayload(rc'))
  }

  /** `handle_forward_relay` at relay `j`, for the cell at the head of its link: peel one layer,
      keep the cell if it is recognized, pass it on otherwise. */
  function RelayStep(s: Suite, p: Pipe, j: nat): (Pipe, Outcome)
    requires Shape(p) && j < |p.wires| && p.wires[j] != []
  {
    var (h, q) := Crypt(s, p.relays[j], p.wires[j][0]);
    var f := p.book[j][0];
    var p1 := p.(
      wires := p.wires[j := p.wires[j][1..]], book := p.book[j := p.book[j][1..]],
      gone := p.gone[j := p.gone[j] + [f]]);
    if RecognizedPayload(s, q, h.digest) then
      (p1.(relays := p.relays[j := h.(digest := h.digest + Blank(q))]), Handled(FromPayload(q).value))
    else if j + 1 < |p.relays| then
      (p1.(relays := p.relays[j := h],
           wires := p1.wires[j + 1 := p1.wires[j + 1] + [q]],
           book := p1.book[j + 1 := p1.book[j + 1] + [f]]), Passed)
    else
      (p1.(relays := p.relays[j := h]), Exited(q))
  }

  /** A new relay answers CREATE; the client does not know the hop yet. */
  function AddRelay(p: Pipe, h: Half): Pipe {
    p.(relays := p.relays + [h], wires := p.wires + [[]], book := p.book + [[]],
       gone := p.gone + [[]], seeds := p.seeds + [h.digest])
  }

  /** The client learns the hop. */
  function AddHop(p: Pipe, h: Half): Pipe {
    p.(sender := p.sender + [h])
  }

  // ── Invariant ───────────────────────────────────────────────────────

  predicate Shape(p: Pipe) {
    && |p.sender| <= |p.relays| == |p.wires| == |p.book| == |p.gone| == |p.seeds|
    && forall j :: 0 <= j < |p.wires| ==> |p.wires[j]| == |p.book[j]|
  }

  /** Everything on links `i`, `i - 1`, ..., 0: what relay `i` has yet to see, oldest first. */
  function Wire(book: seq<seq<Flight>>, i: nat): seq<Flight>
    requires i < |book|
  {
    if i == 0 then book[0] else book[i] + Wire(book, i - 1)
  }

  /** The cells for relay `i` still in flight. */
  function InFlight(p: Pipe, i: nat): seq<Flight>
    requires Shape(p) && i < |p.relays|
  {
    Filter(Wire(p.book, i), Past(i))
  }

  /** `fs[k]` was wrapped for hop `i` with counter `k`. */
  predicate CountedInTurn(fs: seq<Flight>, i: nat) {
    forall k :: 0 <= k < |fs| ==> i < |fs[k].nonces| && fs[k].nonces[i] == Count(k)
  }

  /** Hop `i` and the client share a key, and their counters differ by the cells in flight. */
  ghost predicate CountInv(p: Pipe, i: nat)
    requires Shape(p) && i < |p.relays|
  {
    && p.gone[i] + InFlight(p, i) == Filter(p.sent, Past(i))
    && p.relays[i].nonce == Count(|p.gone[i]|)
    && CountedInTurn(Filter(p.sent, Past(i)), i)
    && (i < |p.sender| ==>
      && p.sender[i].key == p.relays[i].key
      && p.sender[i].nonce == Count(|Filter(p.sent, Past(i))|))
  }

  /** Their digests differ by the cells in flight addressed to hop `i`. */
  ghost predicate DigestInv(s: Suite, p: Pipe, i: nat)
    requires Shape(p) && i < |p.relays|
  {
    && p.relays[i].digest == p.seeds[i] + Hist(Filter(p.gone[i], To(i)))
    && StampedInTurn(s, p.seeds[i], Filter(p.sent, To(i)))
    && (i < |p.sender| ==> p.sender[i].digest == p.seeds[i] + Hist(Filter(p.sent, To(i))))
  }

  ghost predicate HopInv(s: Suite, p: Pipe, i: nat)
    requires Shape(p) && i < |p.relays|
  {
    CountInv(p, i) && DigestInv(s, p, i)
  }

  /** Flight `f` on link `j` is well formed, and `cell` is what it must look like there. */
  predicate CellInv(s: Suite, p: Pipe, j: nat, f: Flight, cell: Payload) {
    && j < f.span <= |p.sender|
    && |f.nonces| == f.span
    && (!f.addressed ==> f.span == |p.relays|)
    && cell == Layers(s, Keys(p.sender), f.nonces, j, f.span, f.plain)
  }

  ghost predicate Inv(s: Suite, p: Pipe) {
    && Shape(p)
    && (forall f :: f in p.sent ==> f.span <= |p.sender|)
    && (forall i :: 0 <= i < |p.relays| ==> HopInv(s, p, i))
    && (forall j, k :: 0 <= j < |p.wires| && 0 <= k < |p.wires[j]| ==>
      CellInv(s, p, j, p.book[j][k], p.wires[j][k]))
  }

  // ── Links ───────────────────────────────────────────────────────────

  lemma {:induction false} WireMember(book: seq<seq<Flight>>, i: nat, j: nat, k: nat)
    requires j <= i < |book| && k < |book[j]|
    ensures book[j][k] in Wire(book, i)
  {
    if j < i {
      WireMember(book, i - 1, j, k);
    }
  }

  lemma {:induction false} WireAppend0(book: seq<seq<Flight>>, f: Flight, i: nat)
    requires i < |book|
    ensures Wire(book[0 := book[0] + [f]], i) == Wire(book, i) + [f]
  {
    if i > 0 {
      WireAppend0(book, f, i - 1);
      var w := Wire(book, i - 1);
      assert book[i] + (w + [f]) == (book[i] + w) + [f];
    }
  }

  /** Removing the head of link `j` removes it from the wire of relay `j` and of no nearer one. */
  lemma {:induction false} WirePop(book: seq<seq<Flight>>, j: nat, i: nat)
    requires i <= j < |book| && book[j] != []
    ensures var book' := book[j := book[j][1..]];
            Wire(book', i) == if i == j then Wire(book, j)[1..] else Wire(book, i)
    ensures i == j ==> Wire(book, j) != [] && Wire(book, j)[0] == book[j][0]
  {
    var book' := book[j := book[j][1..]];
    if i > 0 {
      WirePop(book, j, i - 1);
      if i == j {
        var rest := Wire(book, j - 1);
        assert book'[j] + rest == (book[j] + rest)[1..];
      }
    }
  }

  /** For relays further on, the same removal drops the one flight. */
  lemma {:induction false} WirePopBeyond(book: seq<seq<Flight>>, j: nat, i: nat, sel: Selector)
    requires j <= i < |book| && book[j] != [] && !Picks(sel, book[j][0])
    ensures Filter(Wire(book[j := book[j][1..]], i), sel) == Filter(Wire(book, i), sel)
  {
    var book' := book[j := book[j][1..]];
    if i == j {
      WirePop(book, j, j);
      var w := Wire(book, j);
      assert w == [w[0]] + w[1..];
    } else {
      WirePopBeyond(book, j, i - 1, sel);
      FilterConcat(book[i], Wire(book, i - 1), sel);
      FilterConcat(book'[i], Wire(book', i - 1), sel);
    }
  }

  /** Moving the head of link `j` to the tail of link `j + 1` changes nothing for relays beyond. */
  lemma {:induction false} WireMove(book: seq<seq<Flight>>, j: nat, i: nat)
    requires j + 1 < |book| && i < |book| && book[j] != []
    ensures var book' := book[j := book[j][1..]][j + 1 := book[j + 1] + [book[j][0]]];
            Wire(book', i) == if i == j then Wire(book, j)[1..] else Wire(book, i)
  {
    var f := book[j][0];
    var book1 := book[j := book[j][1..]];
    var book' := book1[j + 1 := book[j + 1] + [f]];
    if i <= j {
      WirePop(book, j, i);
      WireSame(book1, book', i);
    } else {
      WireMove(book, j, i - 1);
      if i == j + 1 {
        WirePop(book, j, j);
        var w := Wire(book, j);
        assert w == [f] + w[1..];
        assert Wire(book', i) == (book[i] + [f]) + w[1..];
        assert book[i] + ([f] + w[1..]) == (book[i] + [f]) + w[1..];
      } else {
        assert book'[i] == book[i];
      }
    }
  }

  lemma {:induction false} WireSame(book: seq<seq<Flight>>, book': seq<seq<Flight>>, i: nat)
    requires i < |book| && i < |book'| && forall k :: 0 <= k <= i ==> book[k] == book'[k]
    ensures Wire(book, i) == Wire(book', i)
  {
    if i > 0 {
      WireSame(book, book', i - 1);
    }
  }

  // ── Preservation: sending ───────────────────────────────────────────

  /** What stamping must have done to the client's hops before the layers go on. */
  predicate Stamped(s: Suite, p: Pipe, sender1: seq<Half>, span: nat, addressed: bool, plain: Payload)
    requires 0 < span <= |p.sender|
  {
    if addressed then
      && RecognizedPayload(s, plain, p.sender[span - 1].digest)
      && sender1 == p.sender[span - 1 := p.sender[span - 1].(digest := p.sender[span - 1].digest + Blank(plain))]
    else
      sender1 == p.sender && span == |p.relays|
  }

  /** The four selections a new flight is appended to. */
  lemma SendFilters(p: Pipe, f: Flight, i: nat)
    requires Shape(p) && i < |p.relays|
    ensures Filter(p.sent + [f], Past(i)) == Filter(p.sent, Past(i)) + (if f.span > i then [f] else [])
    ensures Filter(p.sent + [f], To(i)) == Filter(p.sent, To(i)) + (if Picks(To(i), f) then [f] else [])
    ensures Filter(Wire(p.book[0 := p.book[0] + [f]], i), Past(i))
         == InFlight(p, i) + (if f.span > i then [f] else [])
  {
    FilterOne(f, Past(i));
    FilterOne(f, To(i));
    FilterConcat(p.sent, [f], Past(i));
    FilterConcat(p.sent, [f], To(i));
    WireAppend0(p.book, f, i);
    FilterConcat(Wire(p.book, i), [f], Past(i));
  }

  lemma CountedSnoc(fs: seq<Flight>, f: Flight, i: nat)
    requires CountedInTurn(fs, i) && i < |f.nonces| && f.nonces[i] == Count(|fs|)
    ensures CountedInTurn(fs + [f], i)
  {
  }

  /** The parts of a pipe that sending `f` changes, hop by hop. */
  ghost predicate SentFlight(p: Pipe, p': Pipe, f: Flight) {
    && Shape(p) && Shape(p') && |p.relays| > 0
    && f.span == |f.nonces| <= |p.sender| == |p'.sender|
    && p'.relays == p.relays && p'.gone == p.gone && p'.seeds == p.seeds
    && p'.sent == p.sent + [f]
    && p'.book == p.book[0 := p.book[0] + [f]]
  }

  lemma SendCount(p: Pipe, p': Pipe, f: Flight, i: nat)
    requires SentFlight(p, p', f) && i < |p.relays| && CountInv(p, i)
    requires i < f.span ==> f.nonces[i] == p.sender[i].nonce && p'.sender[i].nonce == WrapSucc(p.sender[i].nonce)
    requires i < |p.sender| ==> p'.sender[i].key == p.sender[i].key
    requires f.span <= i < |p.sender| ==> p'.sender[i].nonce == p.sender[i].nonce
    ensures CountInv(p', i)
  {
    var through := Filter(p.sent, Past(i));
    SendFilters(p, f, i);
    if i < f.span {
      CountSucc(|through|);
      CountedSnoc(through, f, i);
      assert p.gone[i] + (InFlight(p, i) + [f]) == through + [f];
    } else {
      assert InFlight(p, i) + [] == InFlight(p, i);
      assert through + [] == through;
    }
  }

  lemma SendDigest(s: Suite, p: Pipe, p': Pipe, f: Flight, i: nat)
    requires SentFlight(p, p', f) && i < |p.relays| && DigestInv(s, p, i)
    requires Picks(To(i), f) ==>
      && RecognizedPayload(s, f.plain, p.sender[i].digest)
      && p'.sender[i].digest == p.sender[i].digest + Blank(f.plain)
    requires i < |p.sender| && !Picks(To(i), f) ==> p'.sender[i].digest == p.sender[i].digest
    ensures DigestInv(s, p', i)
  {
    var mine := Filter(p.sent, To(i));
    SendFilters(p, f, i);
    if Picks(To(i), f) {
      StampedSnoc(s, p.seeds[i], mine, f);
    } else {
      assert mine + [] == mine;
    }
  }

  lemma SendCell(s: Suite, p: Pipe, sender1: seq<Half>, span: nat, addressed: bool, plain: Payload, j: nat, k: nat)
    requires Inv(s, p) && 0 < span <= |p.sender| && Stamped(s, p, sender1, span, addressed, plain)
    requires var p' := Send(s, p, sender1, span, addressed, plain); j < |p'.wires| && k < |p'.wires[j]|
    ensures var p' := Send(s, p, sender1, span, addressed, plain);
            Shape(p') && CellInv(s, p', j, p'.book[j][k], p'.wires[j][k])
  {
    hide RecognizedPayload, Blank, Hist, Filter, Wire, Layer;
    var p' := Send(s, p, sender1, span, addressed, plain);
    WrapAllMeaning(s, sender1, span, plain);
    assert Keys(p'.sender) == Keys(p.sender) == Keys(sender1);
    assert Nonces(sender1) == Nonces(p.sender);
    if k < |p.wires[j]| {
      assert CellInv(s, p, j, p.book[j][k], p.wires[j][k]);
    } else {
      LayersFrame(s, Keys(p.sender), Nonces(p.sender), Keys(p.sender), Nonces(p.sender)[..span], 0, span, plain);
    }
  }

  lemma SendPreserves(s: Suite, p: Pipe, sender1: seq<Half>, span: nat, addressed: bool, plain: Payload)
    requires Inv(s, p) && 0 < span <= |p.sender| && Stamped(s, p, sender1, span, addressed, plain)
    ensures Inv(s, Send(s, p, sender1, span, addressed, plain))
  {
    hide Hist, Filter, Wire, Layer, Layers;
    var p' := Send(s, p, sender1, span, addressed, plain);
    var f := Flight(span, addressed, Nonces(p.sender)[..span], plain);
    WrapAllMeaning(s, sender1, span, plain);
    forall i | 0 <= i < |p'.relays|
      ensures Shape(p') && HopInv(s, p', i)
    {
      assert HopInv(s, p, i);
      SendCount(p, p', f, i);
      SendDigest(s, p, p', f, i);
    }
    forall j, k | 0 <= j < |p'.wires| && 0 <= k < |p'.wires[j]|
      ensures CellInv(s, p', j, p'.book[j][k], p'.wires[j][k])
    {
      SendCell(s, p, sender1, span, addressed, plain, j, k);
    }
  }

  // ── Preservation: one relay step ────────────────────────────────────

  /** The hypothesis for one step: the relay does not mistake a cell meant for somebody else for
      its own. */
  predicate NotMistaken(s: Suite, p: Pipe, j: nat)
    requires Shape(p) && j < |p.wires| && p.wires[j] != []
  {
    var f := p.book[j][0];
    !Picks(To(j), f) ==>
      !RecognizedPayload(s, Layer(s, p.relays[j].key, p.relays[j].nonce, p.wires[j][0]), p.relays[j].digest)
  }

  /** The head of link `j` is the next cell the client meant to cross relay `j`: it wears the very
      counter the relay will use, and if it is addressed here it was stamped for this history. */
  lemma HeadIsNext(s: Suite, p: Pipe, j: nat)
    requires Inv(s, p) && j < |p.wires| && p.wires[j] != []
    ensures var f := p.book[j][0];
            && f.span > j
            && InFlight(p, j) != [] && InFlight(p, j)[0] == f
            && j < |f.nonces| && f.nonces[j] == p.relays[j].nonce
            && (Picks(To(j), f) ==> RecognizedPayload(s, f.plain, p.relays[j].digest))
  {
    var f := p.book[j][0];
    assert CellInv(s, p, j, f, p.wires[j][0]);
    assert HopInv(s, p, j);
    WirePop(p.book, j, j);
    var w := Wire(p.book, j);
    assert Filter(w, Past(j)) == [f] + Filter(w[1..], Past(j));
    var all := Filter(p.sent, Past(j));
    assert all[|p.gone[j]|] == f;
    if Picks(To(j), f) {
      var rest := InFlight(p, j)[1..];
      assert all == p.gone[j] + ([f] + rest);
      FilterToOfPast(p.sent, j);
      FilterConcat(p.gone[j], [f] + rest, To(j));
      FilterConcat([f], rest, To(j));
      FilterOne(f, To(j));
      var mine := Filter(p.gone[j], To(j));
      var mineAll := Filter(p.sent, To(j));
      assert mineAll[..|mine|] == mine && mineAll[|mine|] == f;
    }
  }

  /** Peeling the head gives the same flight one link further on, or the plaintext at its last hop. */
  lemma PeeledHead(s: Suite, p: Pipe, j: nat)
    requires Inv(s, p) && j < |p.wires| && p.wires[j] != []
    ensures var f := p.book[j][0];
            && j < f.span <= |p.sender| && |f.nonces| == f.span
            && Layer(s, p.relays[j].key, p.relays[j].nonce, p.wires[j][0])
            == Layers(s, Keys(p.sender), f.nonces, j + 1, f.span, f.plain)
  {
    HeadIsNext(s, p, j);
    var f := p.book[j][0];
    assert CellInv(s, p, j, f, p.wires[j][0]);
    assert HopInv(s, p, j);
    LayerInvolution(s, p.relays[j].key, p.relays[j].nonce,
                    Layers(s, Keys(p.sender), f.nonces, j + 1, f.span, f.plain));
  }

  /** A step does what the flight says: an addressee handles the very relay cell that was sent, a
      hop on the way passes the cell on, and the last hop of an end-to-end cell lets out exactly the
      payload the client put in. */
  lemma StepOutcome(s: Suite, p: Pipe, j: nat)
    requires Inv(s, p) && j < |p.wires| && p.wires[j] != [] && NotMistaken(s, p, j)
    ensures var f := p.book[j][0];
            var (p', outcome) := RelayStep(s, p, j);
            && j < f.span
            && (Picks(To(j), f) ==> FromPayload(f.plain).Some? && outcome == Handled(FromPayload(f.plain).value))
            && (f.span > j + 1 ==> outcome == Passed)
            && (!f.addressed && f.span == j + 1 ==> outcome == Exited(f.plain) && j + 1 == |p.relays|)
            && p'.relays == p.relays[j := Crossed(p.relays[j], Picks(To(j), f), f.plain)]
  {
    PeeledHead(s, p, j);
    HeadIsNext(s, p, j);
    var f := p.book[j][0];
    assert CellInv(s, p, j, f, p.wires[j][0]);
  }

  /** The step takes the flight out of relay `j`'s view and out of nobody else's. */
  lemma StepInFlight(s: Suite, p: Pipe, j: nat, i: nat)
    requires Shape(p) && Inv(s, p) && j < |p.wires| && p.wires[j] != [] && NotMistaken(s, p, j) && i < |p.relays|
    ensures var p' := RelayStep(s, p, j).0;
            && Shape(p')
            && InFlight(p, i) == (if i == j then [p.book[j][0]] else []) + InFlight(p', i)
  {
    hide RecognizedPayload, Blank, Hist, Layer, Layers, Inv, NotMistaken;
    var f := p.book[j][0];
    var (p', outcome) := RelayStep(s, p, j);
    StepOutcome(s, p, j);
    if outcome.Passed? {
      WireMove(p.book, j, i);
    } else if i <= j {
      WirePop(p.book, j, i);
    } else {
      WirePopBeyond(p.book, j, i, Past(i));
    }
    if i == j {
      WirePop(p.book, j, j);
      var w := Wire(p.book, j);
      assert Filter(w, Past(j)) == [f] + Filter(w[1..], Past(j));
    } else {
      assert [] + InFlight(p', i) == InFlight(p', i);
    }
  }

  /** The parts of a pipe that relay `j` taking `f` changes, seen from hop `i`. */
  ghost predicate TookFlight(p: Pipe, p': Pipe, j: nat, f: Flight) {
    && Shape(p) && Shape(p') && j < |p.relays| == |p'.relays|
    && p'.sender == p.sender && p'.sent == p.sent && p'.seeds == p.seeds
    && p'.gone == p.gone[j := p.gone[j] + [f]]
    && p'.relays == p.relays[j := Crossed(p.relays[j], Picks(To(j), f), f.plain)]
  }

  lemma StepCount(p: Pipe, p': Pipe, j: nat, f: Flight, i: nat)
    requires TookFlight(p, p', j, f) && i < |p.relays| && CountInv(p, i)
    requires InFlight(p, i) == (if i == j then [f] else []) + InFlight(p', i)
    ensures CountInv(p', i)
  {
    hide Filter, Wire, Blank;
    CountSucc(|p.gone[i]|);
    var w := InFlight(p', i);
    if i == j {
      assert (p.gone[i] + [f]) + w == p.gone[i] + ([f] + w);
    } else {
      assert [] + w == w;
    }
  }

  lemma StepDigest(s: Suite, p: Pipe, p': Pipe, j: nat, f: Flight, i: nat)
    requires TookFlight(p, p', j, f) && i < |p.relays| && DigestInv(s, p, i)
    ensures DigestInv(s, p', i)
  {
    hide RecognizedPayload, Filter, Hist, Blank;
    if i == j {
      HistFilterSnoc(p.seeds[i], p.gone[i], f, i);
    }
  }

  /** Every cell on a link after the step was there before, or is the peeled head moved on. */
  lemma StepWires(s: Suite, p: Pipe, j: nat, l: nat, k: nat)
    requires Shape(p) && j < |p.wires| && p.wires[j] != []
    requires var p' := RelayStep(s, p, j).0; l < |p'.wires| && k < |p'.wires[l]|
    ensures var (p', outcome) := RelayStep(s, p, j);
            && Shape(p') && p'.sender == p.sender && |p'.relays| == |p.relays|
            && (l == j ==> k + 1 < |p.wires[j]| && p'.wires[l][k] == p.wires[j][k + 1] && p'.book[l][k] == p.book[j][k + 1])
            && (l != j && k < |p.wires[l]| ==> p'.wires[l][k] == p.wires[l][k] && p'.book[l][k] == p.book[l][k])
            && (l != j && k >= |p.wires[l]| ==>
              && outcome.Passed? && l == j + 1 && p'.book[l][k] == p.book[j][0]
              && p'.wires[l][k] == Layer(s, p.relays[j].key, p.relays[j].nonce, p.wires[j][0]))
  {
  }

  lemma StepCell(s: Suite, p: Pipe, j: nat, l: nat, k: nat)
    requires Inv(s, p) && j < |p.wires| && p.wires[j] != [] && NotMistaken(s, p, j)
    requires var p' := RelayStep(s, p, j).0; l < |p'.wires| && k < |p'.wires[l]|
    ensures var p' := RelayStep(s, p, j).0;
            Shape(p') && CellInv(s, p', l, p'.book[l][k], p'.wires[l][k])
  {
    StepWires(s, p, j, l, k);
    if l == j {
      assert CellInv(s, p, j, p.book[j][k + 1], p.wires[j][k + 1]);
    } else if k < |p.wires[l]| {
      assert CellInv(s, p, l, p.book[l][k], p.wires[l][k]);
    } else {
      StepOutcome(s, p, j);
      PeeledHead(s, p, j);
      assert CellInv(s, p, j, p.book[j][0], p.wires[j][0]);
    }
  }

  lemma StepPreserves(s: Suite, p: Pipe, j: nat)
    requires Inv(s, p) && j < |p.wires| && p.wires[j] != [] && NotMistaken(s, p, j)
    ensures Inv(s, RelayStep(s, p, j).0)
  {
    hide Hist, Filter, Wire, Layer, Layers;
    var p' := RelayStep(s, p, j).0;
    var f := p.book[j][0];
    StepOutcome(s, p, j);
    forall i | 0 <= i < |p'.relays|
      ensures Shape(p') && HopInv(s, p', i)
    {
      assert HopInv(s, p, i);
      StepInFlight(s, p, j, i);
      StepCount(p, p', j, f, i);
      StepDigest(s, p, p', j, f, i);
    }
    forall l, k | 0 <= l < |p'.wires| && 0 <= k < |p'.wires[l]|
      ensures CellInv(s, p', l, p'.book[l][k], p'.wires[l][k])
    {
      StepCell(s, p, j, l, k);
    }
  }

  // ── Preservation: a growing chain ───────────────────────────────────

  /** A relay nobody has sent through yet joins the chain. */
  lemma AddRelayPreserves(s: Suite, p: Pipe, h: Half)
    requires Inv(s, p) && |p.sender| == |p.relays| && h.nonce == 0
    requires forall f :: f in p.sent ==> f.addressed
    requires forall j, k :: 0 <= j < |p.book| && 0 <= k < |p.book[j]| ==> p.book[j][k].addressed
    ensures Inv(s, AddRelay(p, h))
  {
    var n := |p.relays|;
    var p' := AddRelay(p, h);
    forall i | 0 <= i < |p'.relays|
      ensures HopInv(s, p', i)
    {
      if i < n {
        assert HopInv(s, p, i);
        WireSame(p.book, p'.book, i);
      } else {
        FilterNone(p.sent, Past(n));
        FilterNone(p.sent, To(n));
        if n > 0 {
          forall f | f in Wire(p'.book, n)
            ensures !Picks(Past(n), f)
          {
            WireSame(p.book, p'.book, n - 1);
            assert f in Wire(p.book, n - 1);
            WireSpans(s, p, n - 1, f);
          }
        }
        FilterNone(Wire(p'.book, n), Past(n));
        assert p'.seeds[n] + [] == p'.seeds[n];
      }
    }
    forall j, k | 0 <= j < |p'.wires| && 0 <= k < |p'.wires[j]|
      ensures CellInv(s, p', j, p'.book[j][k], p'.wires[j][k])
    {
      assert CellInv(s, p, j, p.book[j][k], p.wires[j][k]);
    }
  }

  lemma {:induction false} WireSpans(s: Suite, p: Pipe, i: nat, f: Flight)
    requires Inv(s, p) && i < |p.relays| && f in Wire(p.book, i)
    ensures f.span <= |p.sender|
  {
    if f in p.book[i] {
      var k :| 0 <= k < |p.book[i]| && p.book[i][k] == f;
      assert CellInv(s, p, i, p.book[i][k], p.wires[i][k]);
    } else {
      WireSpans(s, p, i - 1, f);
    }
  }

  /** The client learns a hop whose relay holds the same fresh state. */
  lemma AddHopPreserves(s: Suite, p: Pipe)
    requires Inv(s, p) && |p.sender| < |p.relays|
    requires var n := |p.sender|; p.relays[n].nonce == 0 && p.gone[n] == [] && p.relays[n].digest == p.seeds[n]
    ensures Inv(s, AddHop(p, p.relays[|p.sender|]))
  {
    var n := |p.sender|;
    var p' := AddHop(p, p.relays[n]);
    assert Shape(p');
    forall i | 0 <= i < |p'.relays|
      ensures HopInv(s, p', i)
    {
      assert HopInv(s, p, i);
      if i == n {
        FilterNone(p.sent, Past(n));
        FilterNone(p.sent, To(n));
        assert p.seeds[n] + [] == p.seeds[n];
      }
    }
    forall j, k | 0 <= j < |p'.wires| && 0 <= k < |p'.wires[j]|
      ensures CellInv(s, p', j, p'.book[j][k], p'.wires[j][k])
    {
      var f := p.book[j][k];
      assert CellInv(s, p, j, f, p.wires[j][k]);
      LayersFrame(s, Keys(p.sender), f.nonces, Keys(p'.sender), f.nonces, j, f.span, f.plain);
    }
  }

  // ── Cells on their way through ──────────────────────────────────────

  /** The end-to-end cells that have left the last relay. */
  function Left(p: Pipe): seq<Flight>
    requires Shape(p) && |p.relays| > 0
  {
    Filter(p.gone[|p.relays| - 1], EndToEnd)
  }

  lemma FilterOfPast(fs: seq<Flight>, i: nat)
    requires forall f :: f in fs && !f.addressed ==> f.span > i
    ensures Filter(Filter(fs, Past(i)), EndToEnd) == Filter(fs, EndToEnd)
  {
    if fs != [] {
      FilterOfPast(fs[1..], i);
      var rest := Filter(fs[1..], Past(i));
      if Picks(Past(i), fs[0]) {
        assert ([fs[0]] + rest)[1..] == rest;
      }
    }
  }

  /** The end-to-end cells leave in the order they were sent, and the next to leave is the next sent. */
  lemma LeftInOrder(s: Suite, p: Pipe)
    requires Inv(s, p) && |p.relays| > 0
    requires forall f :: f in p.sent && !f.addressed ==> f.span == |p.relays|
    ensures Left(p) <= Filter(p.sent, EndToEnd)
    ensures var j := |p.relays| - 1;
            p.wires[j] != [] && !p.book[j][0].addressed ==>
              var n := |Left(p)|; n < |Filter(p.sent, EndToEnd)| && Filter(p.sent, EndToEnd)[n] == p.book[j][0]
  {
    hide RecognizedPayload, Hist;
    var j := |p.relays| - 1;
    assert HopInv(s, p, j);
    FilterOfPast(p.sent, j);
    FilterConcat(p.gone[j], InFlight(p, j), EndToEnd);
    if p.wires[j] != [] {
      HeadIsNext(s, p, j);
      var f, rest := p.book[j][0], InFlight(p, j)[1..];
      assert InFlight(p, j) == [f] + rest;
      FilterConcat([f], rest, EndToEnd);
      FilterOne(f, EndToEnd);
    }
  }
}

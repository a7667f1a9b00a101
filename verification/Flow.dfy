/** Bookkeeping for cells in flight along a chain of hops, and the layers they wear.

    The handlers of the source never see any of this: a `Flight` records, for one cell on a wire,
    what was sent, so that invariants can say what the bytes on the wire must be. */
module Flow {
  import opened Bytes
  import opened Circuit

  /** A cell crossing `span` hops. An addressed one is stamped with the digest of hop `span - 1`;
      any other is an end-to-end cell, meant for no hop of this circuit. `nonces[i]` is the counter
      its layer for hop `i` was made with. */
  datatype Flight = Flight(span: nat, addressed: bool, nonces: seq<u64>, plain: Payload)

  /** Selections of flights. */
  datatype Selector = Past(hop: nat) | To(hop: nat) | EndToEnd | Commanding(command: RelayCommand)

  predicate Picks(sel: Selector, f: Flight) {
    match sel
    case Past(i) => f.span > i
    case To(i) => f.addressed && f.span == i + 1
    case EndToEnd => !f.addressed
    case Commanding(c) => f.addressed && FromPayload(f.plain).Some? && FromPayload(f.plain).value.command == c
  }

  function Filter(fs: seq<Flight>, sel: Selector): seq<Flight> {
    if fs == [] then []
    else if Picks(sel, fs[0]) then [fs[0]] + Filter(fs[1..], sel)
    else Filter(fs[1..], sel)
  }

  lemma {:induction false} FilterConcat(a: seq<Flight>, b: seq<Flight>, sel: Selector)
    ensures Filter(a + b, sel) == Filter(a, sel) + Filter(b, sel)
  {
    if a == [] {
      assert a + b == b;
    } else {
      assert (a + b)[1..] == a[1..] + b;
      FilterConcat(a[1..], b, sel);
    }
  }

  lemma FilterOne(f: Flight, sel: Selector)
    ensures Filter([f], sel) == if Picks(sel, f) then [f] else []
  {
    assert [f][1..] == [];
  }

  lemma {:induction false} FilterMember(fs: seq<Flight>, sel: Selector, f: Flight)
    ensures f in Filter(fs, sel) <==> f in fs && Picks(sel, f)
  {
    if fs != [] {
      FilterMember(fs[1..], sel, f);
      assert fs == [fs[0]] + fs[1..];
    }
  }

  /** What is addressed to hop `i` certainly crosses hop `i`. */
  lemma {:induction false} FilterToOfPast(fs: seq<Flight>, i: nat)
    ensures Filter(Filter(fs, Past(i)), To(i)) == Filter(fs, To(i))
  {
    if fs != [] {
      var rest := Filter(fs[1..], Past(i));
      FilterToOfPast(fs[1..], i);
      if Picks(Past(i), fs[0]) {
        assert ([fs[0]] + rest)[1..] == rest;
      }
    }
  }

  /** A selection that picks nothing. */
  lemma {:induction false} FilterNone(fs: seq<Flight>, sel: Selector)
    requires forall f :: f in fs ==> !Picks(sel, f)
    ensures Filter(fs, sel) == []
  {
    if fs != [] {
      FilterNone(fs[1..], sel);
    }
  }

  /** The digest history left by a list of cells. */
  function Hist(fs: seq<Flight>): bytes {
    if fs == [] then [] else Hist(fs[..|fs| - 1]) + Blank(fs[|fs| - 1].plain)
  }

  lemma HistSnoc(fs: seq<Flight>, f: Flight)
    ensures Hist(fs + [f]) == Hist(fs) + Blank(f.plain)
  {
    assert (fs + [f])[..|fs|] == fs;
  }

  /** One more cell leaves its mark on the digest of its addressee only. */
  lemma HistFilterSnoc(seed: bytes, fs: seq<Flight>, f: Flight, i: nat)
    ensures seed + Hist(Filter(fs + [f], To(i)))
         == if Picks(To(i), f) then seed + Hist(Filter(fs, To(i))) + Blank(f.plain) else seed + Hist(Filter(fs, To(i)))
  {
    hide Blank, Hist, Filter;
    var mine := Filter(fs, To(i));
    FilterConcat(fs, [f], To(i));
    FilterOne(f, To(i));
    if Picks(To(i), f) {
      HistSnoc(mine, f);
      assert seed + (Hist(mine) + Blank(f.plain)) == seed + Hist(mine) + Blank(f.plain);
    } else {
      assert mine + [] == mine;
    }
  }

  /** A counter after `n` increments from zero. */
  function Count(n: nat): u64 {
    n % U64_LIMIT
  }

  lemma CountSucc(n: nat)
    ensures WrapSucc(Count(n)) == Count(n + 1)
  {
  }

  // ── Layers ──────────────────────────────────────────────────────────

  /** `p` inside the layers of hops `hi - 1`, ..., `lo`, the last one outermost. */
  function Layers(s: Suite, keys: seq<Key32>, nonces: seq<u64>, lo: nat, hi: nat, p: Payload): Payload
    requires lo <= hi <= |keys| && hi <= |nonces|
    decreases hi - lo
  {
    if lo == hi then p else Layer(s, keys[lo], nonces[lo], Layers(s, keys, nonces, lo + 1, hi, p))
  }

  /** Adding the innermost layer first or last builds the same cell. */
  lemma {:induction false} LayersInside(
    s: Suite, keys: seq<Key32>, nonces: seq<u64>, lo: nat, hi: nat, p: Payload)
    requires lo < hi <= |keys| && hi <= |nonces|
    ensures Layers(s, keys, nonces, lo, hi, p)
         == Layers(s, keys, nonces, lo, hi - 1, Layer(s, keys[hi - 1], nonces[hi - 1], p))
    decreases hi - lo
  {
    if lo + 1 < hi {
      LayersInside(s, keys, nonces, lo + 1, hi, p);
    } else {
      assert Layers(s, keys, nonces, hi, hi, p) == p;
    }
  }

  /** Layers depend only on the keys and counters in their range. */
  lemma {:induction false} LayersFrame(
    s: Suite, keys: seq<Key32>, nonces: seq<u64>, keys': seq<Key32>, nonces': seq<u64>,
    lo: nat, hi: nat, p: Payload)
    requires lo <= hi <= |keys| && hi <= |nonces| && hi <= |keys'| && hi <= |nonces'|
    requires forall i :: lo <= i < hi ==> keys[i] == keys'[i] && nonces[i] == nonces'[i]
    ensures Layers(s, keys, nonces, lo, hi, p) == Layers(s, keys', nonces', lo, hi, p)
    decreases hi - lo
  {
    if lo < hi {
      LayersFrame(s, keys, nonces, keys', nonces', lo + 1, hi, p);
    }
  }

  function Keys(hs: seq<Half>): (k: seq<Key32>)
    ensures |k| == |hs|
  {
    seq(|hs|, i requires 0 <= i < |hs| => hs[i].key)
  }

  function Nonces(hs: seq<Half>): (n: seq<u64>)
    ensures |n| == |hs|
  {
    seq(|hs|, i requires 0 <= i < |hs| => hs[i].nonce)
  }

  // ── The client's loops, on one direction of every hop ───────────────

  /** The wrapping loop of `encrypt_outbound`: hops `n - 1` down to 0. */
  function WrapAll(s: Suite, hs: seq<Half>, n: nat, p: Payload): (r: (seq<Half>, Payload))
    requires n <= |hs|
    ensures |r.0| == |hs|
    decreases n
  {
    if n == 0 then (hs, p)
    else
      var (h, p') := Crypt(s, hs[n - 1], p);
      WrapAll(s, hs[n - 1 := h], n - 1, p')
  }

  /** The loop puts on exactly the layers of the first `n` hops, uses each counter once, and leaves
      the other hops alone. */
  lemma {:induction false} WrapAllMeaning(s: Suite, hs: seq<Half>, n: nat, p: Payload)
    requires n <= |hs|
    ensures var (hs', p') := WrapAll(s, hs, n, p);
            && p' == Layers(s, Keys(hs), Nonces(hs), 0, n, p)
            && (forall i :: 0 <= i < n ==> hs'[i] == hs[i].(nonce := WrapSucc(hs[i].nonce)))
            && (forall i :: n <= i < |hs| ==> hs'[i] == hs[i])
    decreases n
  {
    if n > 0 {
      var (h, p1) := Crypt(s, hs[n - 1], p);
      var hs1 := hs[n - 1 := h];
      WrapAllMeaning(s, hs1, n - 1, p1);
      LayersInside(s, Keys(hs), Nonces(hs), 0, n, p);
      LayersFrame(s, Keys(hs), Nonces(hs), Keys(hs1), Nonces(hs1), 0, n - 1, p1);
    }
  }

  /** Result of the peeling loop of `decrypt_inbound`. */
  datatype Peeled = Peeled(hops: seq<Half>, payload: Payload, hop: nat, recognized: bool)

  /** The peeling loop of `decrypt_inbound` from hop `i` on: it stops at the first hop that
      recognizes what is left, advancing that hop's digest. */
  function Peel(s: Suite, hs: seq<Half>, i: nat, p: Payload): (r: Peeled)
    requires i <= |hs|
    ensures |r.hops| == |hs|
    ensures r.recognized ==> r.hop < |hs| && FromPayload(r.payload).Some?
    decreases |hs| - i
  {
    if i == |hs| then Peeled(hs, p, i, false)
    else
      var (h, p') := Crypt(s, hs[i], p);
      if RecognizedPayload(s, p', h.digest) then
        Peeled(hs[i := h.(digest := h.digest + Blank(p'))], p', i, true)
      else
        Peel(s, hs[i := h], i + 1, p')
  }

  /** The explicit hypothesis: peeling `span` layers off `plain`, no hop before the last one
      mistakes the payload for its own. */
  predicate NoMisrecognition(
    s: Suite, keys: seq<Key32>, hs: seq<Half>, i: nat, span: nat, nonces: seq<u64>, plain: Payload)
    requires i <= span <= |hs| == |keys| && span <= |nonces|
  {
    forall k :: i <= k && k + 1 < span ==>
      !RecognizedPayload(s, Layers(s, keys, nonces, k + 1, span, plain), hs[k].digest)
  }

  /** A hop after a cell crossed it: one counter step, and the digest if the cell was its own. */
  function Crossed(h: Half, own: bool, plain: Payload): Half {
    Half(h.key, WrapSucc(h.nonce), if own then h.digest + Blank(plain) else h.digest)
  }

  /** Every hop `i .. span - 1` is crossed, the last one by its own cell if `own`; no other moves. */
  predicate CrossedRange(hs: seq<Half>, hs': seq<Half>, i: nat, span: nat, own: bool, plain: Payload) {
    && |hs'| == |hs|
    && forall k :: 0 <= k < |hs| ==>
      hs'[k] == if i <= k < span then Crossed(hs[k], own && k == span - 1, plain) else hs[k]
  }

  lemma CrossedFirst(hs: seq<Half>, hs': seq<Half>, i: nat, span: nat, own: bool, plain: Payload)
    requires i + 1 < span <= |hs|
    requires CrossedRange(hs[i := hs[i].(nonce := WrapSucc(hs[i].nonce))], hs', i + 1, span, own, plain)
    ensures CrossedRange(hs, hs', i, span, own, plain)
  {
    hide Blank;
  }

  /** A cell wearing the layers of hops `i .. span - 1` with the client's own counters comes out of
      the loop at hop `span - 1` if that hop recognizes it, and wholly peeled otherwise. Exactly the
      counters of the hops crossed have moved. */
  lemma {:induction false} PeelMeaning(
    s: Suite, keys: seq<Key32>, hs: seq<Half>, i: nat, span: nat, nonces: seq<u64>, plain: Payload)
    requires i < span <= |hs| == |keys| && span <= |nonces|
    requires forall k :: i <= k < span ==> nonces[k] == hs[k].nonce && keys[k] == hs[k].key
    requires NoMisrecognition(s, keys, hs, i, span, nonces, plain)
    requires RecognizedPayload(s, plain, hs[span - 1].digest) || span == |hs|
    ensures var r := Peel(s, hs, i, Layers(s, keys, nonces, i, span, plain));
            var own := RecognizedPayload(s, plain, hs[span - 1].digest);
            && r.payload == plain
            && r.recognized == own
            && (own ==> r.hop == span - 1)
            && CrossedRange(hs, r.hops, i, span, own, plain)
    decreases span - i
  {
    hide RecognizedPayload, Layer, Blank, CrossedRange;
    var inner := Layers(s, keys, nonces, i + 1, span, plain);
    var p := Layers(s, keys, nonces, i, span, plain);
    var (h, p') := Crypt(s, hs[i], p);
    LayerInvolution(s, hs[i].key, hs[i].nonce, inner);
    assert p' == inner;
    if i + 1 < span {
      var hs1 := hs[i := h];
      assert !RecognizedPayload(s, p', h.digest);
      PeelMeaning(s, keys, hs1, i + 1, span, nonces, plain);
      var r := Peel(s, hs1, i + 1, inner);
      assert Peel(s, hs, i, p) == r;
      CrossedFirst(hs, r.hops, i, span, RecognizedPayload(s, plain, hs[span - 1].digest), plain);
    } else {
      assert inner == plain;
      PeelLast(s, hs, i, p);
      CrossedOne(hs, i, RecognizedPayload(s, plain, hs[i].digest), plain);
    }
  }

  lemma CrossedOne(hs: seq<Half>, i: nat, own: bool, plain: Payload)
    requires i < |hs|
    ensures CrossedRange(hs, hs[i := Crossed(hs[i], own, plain)], i, i + 1, own, plain)
  {
    hide Blank;
  }

  lemma PeelLast(s: Suite, hs: seq<Half>, i: nat, p: Payload)
    requires i < |hs|
    ensures var (h, p') := Crypt(s, hs[i], p);
            if RecognizedPayload(s, p', h.digest) then
              Peel(s, hs, i, p) == Peeled(hs[i := Crossed(hs[i], true, p')], p', i, true)
            else if i + 1 == |hs| then
              Peel(s, hs, i, p) == Peeled(hs[i := Crossed(hs[i], false, p')], p', i + 1, false)
            else true
  {
  }

  /** `fs[k]` was stamped after exactly the cells `fs[..k]`. */
  predicate StampedInTurn(s: Suite, seed: bytes, fs: seq<Flight>) {
    forall k :: 0 <= k < |fs| ==> RecognizedPayload(s, fs[k].plain, seed + Hist(fs[..k]))
  }

  lemma StampedSnoc(s: Suite, seed: bytes, fs: seq<Flight>, f: Flight)
    requires StampedInTurn(s, seed, fs) && RecognizedPayload(s, f.plain, seed + Hist(fs))
    ensures StampedInTurn(s, seed, fs + [f])
    ensures seed + Hist(fs + [f]) == seed + Hist(fs) + Blank(f.plain)
  {
    hide RecognizedPayload;
    HistSnoc(fs, f);
    var gs := fs + [f];
    forall k | 0 <= k < |gs|
      ensures RecognizedPayload(s, gs[k].plain, seed + Hist(gs[..k]))
    {
      assert gs[..k] == fs[..k];
      if k == |fs| {
        assert fs[..k] == fs;
      }
    }
  }
}

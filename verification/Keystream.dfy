/** What a layer does to a cell: it flips exactly the bits of its keystream (`phinet-core/src/circuit.rs:413-447`).
    So every bit that goes out is the stamped bit, flipped once for each hop that has it. */
module Keystream {
  import opened Wrappers
  import opened Bytes
  import opened Circuit
  import opened Flow
  import opened CircuitState

  // ── Bits ────────────────────────────────────────────────────────────

  /** Bit `i`, the lowest being bit 0. */
  predicate Bit(n: nat, i: nat) {
    if i == 0 then n % 2 == 1 else Bit(n / 2, i - 1)
  }

  lemma {:induction false} XorBitsMeaning(a: nat, k: nat, n: nat, i: nat)
    requires i < n
    ensures Bit(XorBits(a, k, n), i) <==> Bit(a, i) != Bit(k, i)
  {
    var bit, rest := (a % 2 + k % 2) % 2, XorBits(a / 2, k / 2, n - 1);
    LowBit(bit, rest);
    if i > 0 {
      XorBitsMeaning(a / 2, k / 2, n - 1, i - 1);
    }
  }

  /** Two bytes with the same eight bits are the same. */
  lemma {:induction false} SameBits(a: nat, b: nat, n: nat)
    requires a < Pow2(n) && b < Pow2(n) && forall i :: 0 <= i < n ==> Bit(a, i) == Bit(b, i)
    ensures a == b
  {
    if n > 0 {
      assert Bit(a, 0) == Bit(b, 0);
      forall i | 0 <= i < n - 1
        ensures Bit(a / 2, i) == Bit(b / 2, i)
      {
        assert Bit(a, i + 1) == Bit(b, i + 1);
      }
      SameBits(a / 2, b / 2, n - 1);
    }
  }

  /** A bit of the exclusive or is set exactly where the two bytes differ. */
  lemma XorByteMeaning(a: byte, k: byte, i: nat)
    requires i < 8
    ensures Bit(XorByte(a, k), i) <==> Bit(a, i) != Bit(k, i)
  {
    XorBitsMeaning(a, k, 8, i);
  }

  // ── One layer ───────────────────────────────────────────────────────

  /** Whether the keystream of `h` flips bit `i` of byte `k`. */
  predicate Flips(s: Suite, h: Half, k: nat, i: nat)
    requires k < CELL_PAYLOAD
  {
    Bit(s.keystream(h.key, h.nonce)[k], i)
  }

  lemma LayerFlips(s: Suite, h: Half, p: Payload, k: nat, i: nat)
    requires k < CELL_PAYLOAD && i < 8
    ensures Bit(Layer(s, h.key, h.nonce, p)[k], i) <==> Bit(p[k], i) != Flips(s, h, k, i)
  {
    XorByteMeaning(p[k], s.keystream(h.key, h.nonce)[k], i);
  }

  /** On zeros a layer is its keystream. */
  lemma LayerOfZeros(s: Suite, key: Key32, nonce: u64)
    ensures Layer(s, key, nonce, Zeros(CELL_PAYLOAD)) == s.keystream(key, nonce)
  {
    var r, stream := Layer(s, key, nonce, Zeros(CELL_PAYLOAD)), s.keystream(key, nonce);
    forall k | 0 <= k < CELL_PAYLOAD
      ensures r[k] == stream[k]
    {
      forall i | 0 <= i < 8
        ensures Bit(r[k], i) == Bit(stream[k], i)
      {
        LayerFlips(s, Half(key, nonce, []), Zeros(CELL_PAYLOAD), k, i);
        ZeroBits(i);
      }
      assert Pow2(8) == 256;
      SameBits(r[k], stream[k], 8);
    }
  }

  lemma {:induction false} ZeroBits(i: nat)
    ensures !Bit(0, i)
  {
    if i > 0 {
      ZeroBits(i - 1);
    }
  }

  // ── All of them ─────────────────────────────────────────────────────

  /** How many of the hops from `lo` up to `hi` flip the bit. */
  function Flippers(s: Suite, hs: seq<Half>, lo: nat, hi: nat, k: nat, i: nat): nat
    requires lo <= hi <= |hs| && k < CELL_PAYLOAD
    decreases hi - lo
  {
    if lo == hi then 0 else (if Flips(s, hs[lo], k, i) then 1 else 0) + Flippers(s, hs, lo + 1, hi, k, i)
  }

  lemma {:induction false} LayersFlip(s: Suite, hs: seq<Half>, lo: nat, hi: nat, p: Payload, k: nat, i: nat)
    requires lo <= hi <= |hs| && k < CELL_PAYLOAD && i < 8
    ensures Bit(Layers(s, Keys(hs), Nonces(hs), lo, hi, p)[k], i)
      <==> Bit(p[k], i) != (Flippers(s, hs, lo, hi, k, i) % 2 == 1)
    decreases hi - lo
  {
    hide Layer, Bit;
    if lo < hi {
      LayersFlip(s, hs, lo + 1, hi, p, k, i);
      LayerFlips(s, hs[lo], Layers(s, Keys(hs), Nonces(hs), lo + 1, hi, p), k, i);
    }
  }

  /** What `encrypt_outbound` stamps: for the far end if its layer is on, for the target otherwise. */
  function StampedCell(s: Suite, o: Origin, target: nat, rc: RelayCell): Payload
    requires target < |o.hops|
  {
    var digest := if o.e2e.Some? then o.e2e.value.forward.digest else o.hops[target].forward.digest;
    ToPayload(StampDigest(s, rc, digest).0)
  }

  /** The hops whose layers go on, the far end's the innermost. */
  function Wearing(o: Origin, target: nat): seq<Half>
    requires target < |o.hops|
  {
    Forwards(o.hops)[..target + 1] + (if o.e2e.Some? then [o.e2e.value.forward] else [])
  }

  /** Sending: every bit of the cell is the stamped bit, flipped once for each layer that has it. */
  lemma EncryptFlips(s: Suite, o: Origin, target: nat, rc: RelayCell, now: Instant, k: nat, i: nat)
    requires target < |o.hops| && k < CELL_PAYLOAD && i < 8
    ensures var p, hs := EncryptOutbound(s, o, target, rc, now).1, Wearing(o, target);
            && p.Ok?
            && (Bit(p.value[k], i)
                <==> Bit(StampedCell(s, o, target, rc)[k], i) != (Flippers(s, hs, 0, |hs|, k, i) % 2 == 1))
  {
    hide Layer, Bit, StampDigest, ToPayload;
    var all, plain := Forwards(o.hops), StampedCell(s, o, target, rc);
    var hs := Wearing(o, target);
    FlippersSame(s, hs, all, 0, target + 1, k, i);
    if o.e2e.Some? {
      var e := o.e2e.value.forward;
      var inside := Layer(s, e.key, e.nonce, plain);
      WrapAllMeaning(s, all, target + 1, inside);
      LayersFlip(s, all, 0, target + 1, inside, k, i);
      LayerFlips(s, e, plain, k, i);
      FlippersSnoc(s, hs[..target + 1], e, k, i);
      assert hs == hs[..target + 1] + [e];
      FlippersSame(s, hs, hs[..target + 1], 0, target + 1, k, i);
    } else {
      var stamped := all[target := all[target].(digest := StampDigest(s, rc, all[target].digest).1)];
      WrapAllMeaning(s, stamped, target + 1, plain);
      LayersFlip(s, stamped, 0, target + 1, plain, k, i);
      FlippersSame(s, hs, stamped, 0, target + 1, k, i);
    }
  }

  lemma {:induction false} FlippersSame(s: Suite, hs: seq<Half>, gs: seq<Half>, lo: nat, hi: nat, k: nat, i: nat)
    requires lo <= hi <= |hs| && hi <= |gs| && k < CELL_PAYLOAD
    requires forall j :: lo <= j < hi ==> hs[j].key == gs[j].key && hs[j].nonce == gs[j].nonce
    ensures Flippers(s, hs, lo, hi, k, i) == Flippers(s, gs, lo, hi, k, i)
    decreases hi - lo
  {
    if lo < hi {
      FlippersSame(s, hs, gs, lo + 1, hi, k, i);
    }
  }

  lemma FlippersSnoc(s: Suite, hs: seq<Half>, h: Half, k: nat, i: nat)
    requires k < CELL_PAYLOAD
    ensures Flippers(s, hs + [h], 0, |hs| + 1, k, i)
         == Flippers(s, hs, 0, |hs|, k, i) + (if Flips(s, h, k, i) then 1 else 0)
  {
    FlippersLast(s, hs + [h], 0, |hs| + 1, k, i);
    FlippersSame(s, hs + [h], hs, 0, |hs|, k, i);
  }

  lemma {:induction false} FlippersLast(s: Suite, hs: seq<Half>, lo: nat, hi: nat, k: nat, i: nat)
    requires lo < hi <= |hs| && k < CELL_PAYLOAD
    ensures Flippers(s, hs, lo, hi, k, i) == Flippers(s, hs, lo, hi - 1, k, i) + (if Flips(s, hs[hi - 1], k, i) then 1 else 0)
    decreases hi - lo
  {
    if lo + 1 < hi {
      FlippersLast(s, hs, lo + 1, hi, k, i);
    }
  }

  /** A relay flips the bits of its own keystream, outward and back. */
  lemma RelayFlips(s: Suite, r: RelayCircuit, p: Payload, now: Instant, k: nat, i: nat)
    requires k < CELL_PAYLOAD && i < 8
    ensures Bit(RelayPeel(s, r, p, now).1[k], i) <==> Bit(p[k], i) != Flips(s, r.hop.forward, k, i)
    ensures Bit(RelayBackward(s, r, p).1[k], i) <==> Bit(p[k], i) != Flips(s, r.hop.backward, k, i)
  {
    hide Bit, RecognizedPayload, Layer;
    LayerFlips(s, r.hop.forward, p, k, i);
    LayerFlips(s, r.hop.backward, p, k, i);
  }

  /** Peeling stops at some hop, having flipped the bits of all up to it. */
  lemma {:induction false} PeelFlips(s: Suite, hs: seq<Half>, lo: nat, p: Payload, k: nat, i: nat)
    requires lo <= |hs| && k < CELL_PAYLOAD && i < 8
    ensures var r := Peel(s, hs, lo, p);
            var hi := if r.recognized then r.hop + 1 else |hs|;
            && lo <= hi <= |hs|
            && (Bit(r.payload[k], i) <==> Bit(p[k], i) != (Flippers(s, hs, lo, hi, k, i) % 2 == 1))
    decreases |hs| - lo
  {
    hide Bit, Layer, RecognizedPayload, Blank, FromPayload;
    if lo < |hs| {
      var (h, q) := Crypt(s, hs[lo], p);
      LayerFlips(s, hs[lo], p, k, i);
      if !RecognizedPayload(s, q, h.digest) {
        PeelFlips(s, hs[lo := h], lo + 1, q, k, i);
        var r := Peel(s, hs[lo := h], lo + 1, q);
        FlippersSame(s, hs, hs[lo := h], lo + 1, if r.recognized then r.hop + 1 else |hs|, k, i);
      } else {
        assert Flippers(s, hs, lo + 1, lo + 1, k, i) == 0;
      }
    }
  }

  /** Whose backward layers come off a cell that was taken by `from`. */
  function Peeling(o: Origin, from: Source): seq<Half> {
    match from
    case FromHop(hop) => if hop < |o.hops| then Backwards(o.hops)[..hop + 1] else []
    case FromFarEnd => Backwards(o.hops) + (if o.e2e.Some? then [o.e2e.value.backward] else [])
  }

  /** The history against which a cell from `from` is recognized. */
  function HistoryFor(o: Origin, from: Source): bytes {
    match from
    case FromHop(hop) => if hop < |o.hops| then o.hops[hop].backward.digest else []
    case FromFarEnd => if o.e2e.Some? then o.e2e.value.backward.digest else []
  }

  lemma {:induction false} PeelTakes(s: Suite, hs: seq<Half>, lo: nat, p: Payload)
    requires lo <= |hs|
    ensures var r := Peel(s, hs, lo, p);
            r.recognized ==> lo <= r.hop && RecognizedPayload(s, r.payload, hs[r.hop].digest)
    decreases |hs| - lo
  {
    hide Layer, RecognizedPayload, Blank, FromPayload;
    if lo < |hs| {
      var (h, q) := Crypt(s, hs[lo], p);
      if !RecognizedPayload(s, q, h.digest) {
        PeelTakes(s, hs[lo := h], lo + 1, q);
      }
    }
  }

  /** Receiving: the cell taken is read from a payload each bit of which is the arriving bit, flipped once for each
      layer up to the one that took it, and is recognized by that one's history. */
  lemma DecryptFlips(s: Suite, o: Origin, p: Payload, now: Instant) returns (q: Payload)
    requires DecryptInbound(s, o, p, now).1.Some?
    ensures var (from, rc) := DecryptInbound(s, o, p, now).1.value;
            var hs := Peeling(o, from);
            && FromPayload(q) == Some(rc) && RecognizedPayload(s, q, HistoryFor(o, from))
            && forall k, i :: 0 <= k < CELL_PAYLOAD && 0 <= i < 8 ==>
                 (Bit(q[k], i) <==> Bit(p[k], i) != (Flippers(s, hs, 0, |hs|, k, i) % 2 == 1))
  {
    hide Bit, Layer, Blank, FromPayload, IsRecognizedAt, Flippers;
    var hs := Backwards(o.hops);
    var r := Peel(s, hs, 0, p);
    PeelTakes(s, hs, 0, p);
    if r.recognized {
      q := r.payload;
      forall k, i | 0 <= k < CELL_PAYLOAD && 0 <= i < 8
        ensures Bit(q[k], i) <==> Bit(p[k], i) != (Flippers(s, hs[..r.hop + 1], 0, r.hop + 1, k, i) % 2 == 1)
      {
        PeelFlips(s, hs, 0, p, k, i);
        FlippersSame(s, hs, hs[..r.hop + 1], 0, r.hop + 1, k, i);
      }
    } else {
      var e := o.e2e.value.backward;
      q := Layer(s, e.key, e.nonce, r.payload);
      forall k, i | 0 <= k < CELL_PAYLOAD && 0 <= i < 8
        ensures Bit(q[k], i) <==> Bit(p[k], i) != (Flippers(s, hs + [e], 0, |hs| + 1, k, i) % 2 == 1)
      {
        PeelFlips(s, hs, 0, p, k, i);
        LayerFlips(s, e, r.payload, k, i);
        FlippersSnoc(s, hs, e, k, i);
      }
    }
  }
}

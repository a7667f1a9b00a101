/** With its end-to-end layer on, `encrypt_outbound` stamps for the far end whatever hop it is asked for
    (`phinet-core/src/circuit_mgr.rs:206-240`). Asked for one nearer than the last, it leaves out the layers of
    the hops beyond, which these put on instead of taking off. */
module NearerHop {
  import opened Wrappers
  import opened Bytes
  import opened Circuit
  import opened Flow
  import opened CircuitState

  // ── Layers in another order ─────────────────────────────────────────

  lemma {:induction false} XorBitsSwap(a: nat, k: nat, l: nat, n: nat)
    ensures XorBits(XorBits(a, k, n), l, n) == XorBits(XorBits(a, l, n), k, n)
  {
    hide XorBits;
    if n > 0 {
      XorTwice(a, k, l, n);
      XorTwice(a, l, k, n);
      BitSwap(a % 2, k % 2, l % 2);
      XorBitsSwap(a / 2, k / 2, l / 2, n - 1);
    } else {
      NoBits(XorBits(a, k, 0), l);
      NoBits(XorBits(a, l, 0), k);
    }
  }

  lemma NoBits(a: nat, k: nat)
    ensures XorBits(a, k, 0) == 0
  {
  }

  lemma XorTwice(a: nat, k: nat, l: nat, n: nat)
    requires n > 0
    ensures XorBits(XorBits(a, k, n), l, n)
         == ((a % 2 + k % 2) % 2 + l % 2) % 2 + 2 * XorBits(XorBits(a / 2, k / 2, n - 1), l / 2, n - 1)
  {
    LowBit((a % 2 + k % 2) % 2, XorBits(a / 2, k / 2, n - 1));
  }

  lemma BitSwap(a: nat, k: nat, l: nat)
    requires a < 2 && k < 2 && l < 2
    ensures ((a + k) % 2 + l) % 2 == ((a + l) % 2 + k) % 2
  {
  }

  lemma LayerSwap(s: Suite, k: Key32, m: u64, l: Key32, n: u64, p: Payload)
    ensures Layer(s, k, m, Layer(s, l, n, p)) == Layer(s, l, n, Layer(s, k, m, p))
  {
    var a, b := s.keystream(k, m), s.keystream(l, n);
    forall i | 0 <= i < |p|
      ensures Xor(Xor(p, b), a)[i] == Xor(Xor(p, a), b)[i]
    {
      assert Pow2(8) == 256;
      XorBitsSwap(p[i], b[i], a[i], 8);
    }
  }

  lemma {:induction false} LayersSwap(
    s: Suite, keys: seq<Key32>, nonces: seq<u64>, lo: nat, hi: nat, k: Key32, m: u64, p: Payload)
    requires lo <= hi <= |keys| && hi <= |nonces|
    ensures Layer(s, k, m, Layers(s, keys, nonces, lo, hi, p)) == Layers(s, keys, nonces, lo, hi, Layer(s, k, m, p))
    decreases hi - lo
  {
    hide Layer;
    if lo < hi {
      LayerSwap(s, k, m, keys[lo], nonces[lo], Layers(s, keys, nonces, lo + 1, hi, p));
      LayersSwap(s, keys, nonces, lo + 1, hi, k, m, p);
    }
  }

  // ── One relay after the other ───────────────────────────────────────

  /** `handle_forward_relay` at relays `i`, `i + 1`, ...: what leaves the last, unless one keeps it. */
  function Through(s: Suite, rs: seq<RelayCircuit>, i: nat, p: Payload, now: Instant)
    : (r: (seq<RelayCircuit>, Option<Payload>))
    requires i <= |rs|
    ensures |r.0| == |rs|
    decreases |rs| - i
  {
    if i == |rs| then (rs, Some(p))
    else
      var (r, q, mine) := RelayPeel(s, rs[i], p, now);
      if mine.Some? then (rs[i := r], None) else Through(s, rs[i := r], i + 1, q, now)
  }

  function ForwardsOf(rs: seq<RelayCircuit>): (r: seq<Half>)
    ensures |r| == |rs|
  {
    seq(|rs|, i requires 0 <= i < |rs| => rs[i].hop.forward)
  }

  /** The relays from `i` to `n` use one counter each, and put on or take off their layers. */
  lemma {:induction false} ThroughMeaning(s: Suite, rs: seq<RelayCircuit>, i: nat, n: nat, inside: Payload, now: Instant)
    requires i <= n <= |rs|
    requires Through(s, rs, i, Layers(s, Keys(ForwardsOf(rs)), Nonces(ForwardsOf(rs)), i, n, inside), now).1.Some?
    ensures var hs := ForwardsOf(rs);
            var (rs', q) := Through(s, rs, i, Layers(s, Keys(hs), Nonces(hs), i, n, inside), now);
            && q.value == Layers(s, Keys(hs), Nonces(hs), n, |rs|, inside)
            && (forall k :: 0 <= k < i ==> rs'[k] == rs[k])
            && (forall k :: i <= k < |rs| ==> rs'[k].hop.forward.nonce == WrapSucc(rs[k].hop.forward.nonce))
    decreases |rs| - i
  {
    hide Layer, RecognizedPayload, FromPayload, Blank, WrapSucc;
    var hs := ForwardsOf(rs);
    if i < |rs| {
      var p := Layers(s, Keys(hs), Nonces(hs), i, n, inside);
      var (r, q, mine) := RelayPeel(s, rs[i], p, now);
      var rs1 := rs[i := r];
      var hs1 := ForwardsOf(rs1);
      if i < n {
        LayerInvolution(s, hs[i].key, hs[i].nonce, Layers(s, Keys(hs), Nonces(hs), i + 1, n, inside));
        LayersFrame(s, Keys(hs), Nonces(hs), Keys(hs1), Nonces(hs1), i + 1, n, inside);
        LayersFrame(s, Keys(hs), Nonces(hs), Keys(hs1), Nonces(hs1), n, |rs|, inside);
        ThroughMeaning(s, rs1, i + 1, n, inside, now);
      } else {
        var more := Layer(s, hs[i].key, hs[i].nonce, inside);
        assert Layers(s, Keys(hs1), Nonces(hs1), i + 1, i + 1, more) == more;
        ThroughMeaning(s, rs1, i + 1, i + 1, more, now);
        LayersFrame(s, Keys(hs), Nonces(hs), Keys(hs1), Nonces(hs1), i + 1, |rs|, more);
        LayersSwap(s, Keys(hs), Nonces(hs), i + 1, |rs|, hs[i].key, hs[i].nonce, inside);
      }
    }
  }

  // ── What comes of it ────────────────────────────────────────────────

  predicate InStep(o: Origin, rs: seq<RelayCircuit>) {
    && |rs| == |o.hops|
    && forall i :: 0 <= i < |rs| ==>
         rs[i].hop.forward.key == o.hops[i].forward.key && rs[i].hop.forward.nonce == o.hops[i].forward.nonce
  }

  lemma EncryptMeaning(s: Suite, o: Origin, target: nat, rc: RelayCell, now: Instant)
    requires o.e2e.Some? && target < |o.hops|
    ensures var (o', p) := EncryptOutbound(s, o, target, rc, now);
            var out, hs := o.e2e.value.forward, Forwards(o.hops);
            var inside := Layer(s, out.key, out.nonce, ToPayload(StampDigest(s, rc, out.digest).0));
            && p.Ok? && p.value == Layers(s, Keys(hs), Nonces(hs), 0, target + 1, inside)
            && |o'.hops| == |o.hops|
            && (forall i :: 0 <= i < |o.hops| ==>
                 o'.hops[i].forward == if i <= target then hs[i].(nonce := WrapSucc(hs[i].nonce)) else hs[i])
  {
    hide Layer, StampDigest, ToPayload, WrapSucc;
    var out, hs := o.e2e.value.forward, Forwards(o.hops);
    var inside := Layer(s, out.key, out.nonce, ToPayload(StampDigest(s, rc, out.digest).0));
    WrapAllMeaning(s, hs, target + 1, inside);
    var o' := EncryptOutbound(s, o, target, rc, now).0;
    assert Forwards(o'.hops) == WrapAll(s, hs, target + 1, inside).0;
    assert forall i :: 0 <= i < |o'.hops| ==> Forwards(o'.hops)[i] == o'.hops[i].forward;
  }

  /** A circuit in step, its end-to-end layer on, and a cell sent by way of hop `target`, which no relay keeps.
      Afterwards the hops still in step are exactly those up to `target`. The far end, taking its layer off,
      finds the stamped cell with the layers of the hops beyond on it: the cell as stamped if there are none. */
  lemma {:induction false} NearerHopLost(s: Suite, o: Origin, rs: seq<RelayCircuit>, target: nat, rc: RelayCell, now: Instant)
    requires o.e2e.Some? && target < |o.hops| && InStep(o, rs)
    requires EncryptOutbound(s, o, target, rc, now).1.Ok? ==>
               Through(s, rs, 0, EncryptOutbound(s, o, target, rc, now).1.value, now).1.Some?
    ensures var (o', p) := EncryptOutbound(s, o, target, rc, now);
            && p.Ok? && |o'.hops| == |rs|
            && var (rs', q) := Through(s, rs, 0, p.value, now);
            var out, hs := o.e2e.value.forward, Forwards(o.hops);
            var stamped := ToPayload(StampDigest(s, rc, out.digest).0);
            && (forall i :: 0 <= i < |rs| ==> (rs'[i].hop.forward.nonce == o'.hops[i].forward.nonce <==> i <= target))
            && Layer(s, out.key, out.nonce, q.value) == Layers(s, Keys(hs), Nonces(hs), target + 1, |hs|, stamped)
            && (target + 1 == |hs| ==> Layer(s, out.key, out.nonce, q.value) == stamped)
  {
    hide Layer, StampDigest, ToPayload, WrapSucc, EncryptOutbound, Through;
    EncryptMeaning(s, o, target, rc, now);
    var out, hs := o.e2e.value.forward, Forwards(o.hops);
    var stamped := ToPayload(StampDigest(s, rc, out.digest).0);
    var inside := Layer(s, out.key, out.nonce, stamped);
    var fs := ForwardsOf(rs);
    assert Keys(fs) == Keys(hs) && Nonces(fs) == Nonces(hs);
    ThroughMeaning(s, rs, 0, target + 1, inside, now);
    LayersSwap(s, Keys(hs), Nonces(hs), target + 1, |hs|, out.key, out.nonce, inside);
    LayerInvolution(s, out.key, out.nonce, stamped);
    forall i | 0 <= i < |rs|
      ensures WrapSucc(hs[i].nonce) != hs[i].nonce
    {
      SuccMoves(hs[i].nonce);
    }
  }

  lemma SuccMoves(n: u64)
    ensures WrapSucc(n) != n
  {
  }
}

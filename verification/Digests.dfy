/** What a cell's digest says of it (`phinet-core/src/circuit.rs:283-308`): all of the cell but the digest field is
    hashed, after everything that was hashed before, so whoever takes another cell has found two histories
    with one tag. */
module Digests {
  import opened Wrappers
  import opened Bytes
  import opened Circuit
  import opened Flow
  import opened CircuitState
  import opened Keystream

  /** `c` is the payload with its digest field, and nothing else, zeroed. */
  predicate Covers(c: bytes, p: Payload) {
    |c| == CELL_PAYLOAD && forall k :: 0 <= k < CELL_PAYLOAD ==> c[k] == if 5 <= k < 9 then 0 else p[k]
  }

  /** What is hashed. */
  lemma BlankCovers(p: Payload)
    ensures Covers(Blank(p), p)
  {
  }

  lemma FieldTells(p: Payload, q: Payload)
    requires FromBe32(p[5..9]) == FromBe32(q[5..9]) && Covers(Blank(p), p) && Covers(Blank(q), q) && Blank(p) == Blank(q)
    ensures p == q
  {
    hide Blank;
    var a, b := p[5..9], q[5..9];
    assert a[..2] == [a[0], a[1]] && a[2..] == [a[2], a[3]] && b[..2] == [b[0], b[1]] && b[2..] == [b[2], b[3]];
    Words16(a, b);
    forall k | 0 <= k < CELL_PAYLOAD
      ensures p[k] == q[k]
    {
      if 5 <= k < 9 {
        assert p[k] == a[k - 5] && q[k] == b[k - 5];
      } else {
        assert Blank(p)[k] == p[k] && Blank(q)[k] == q[k];
      }
    }
  }

  lemma Words16(a: bytes, b: bytes)
    requires |a| == |b| == 4 && FromBe32(a) == FromBe32(b)
    ensures a == b
  {
    assert FromBe16(a[..2]) == FromBe16(b[..2]) && FromBe16(a[2..]) == FromBe16(b[2..]);
    assert a[..2][0] == b[..2][0] && a[..2][1] == b[..2][1] && a[2..][0] == b[2..][0] && a[2..][1] == b[2..][1];
  }

  /** A hop takes a payload exactly if it parses, claims to be recognized, and its digest field is the tag of the
      history and all the rest of it. */
  lemma TakenExactly(s: Suite, p: Payload, running: bytes, c: bytes)
    requires Covers(c, p)
    ensures RecognizedPayload(s, p, running) <==>
      && FromPayload(p).Some? && p[1] == 0 && p[2] == 0
      && s.tag(running + c) == FromBe32(p[5..9])
  {
    BlankCovers(p);
    assert c == Blank(p);
    assert FromBe16(p[1..3]) == 0 <==> p[1] == 0 && p[2] == 0;
  }

  /** Stamping: the digest is the tag of the history and the whole cell, and the new history tells every cell
      from every other. */
  lemma StampCovers(s: Suite, a: RelayCell, b: RelayCell, running: bytes)
    ensures var (a', running') := StampDigest(s, a, running);
            && Covers(running'[|running|..], ToPayload(a')) && running'[..|running|] == running
            && a' == a.(digest := s.tag(running'))
    ensures StampDigest(s, a, running).1 == StampDigest(s, b, running).1 <==> a.(digest := 0) == b.(digest := 0)
  {
    hide FromPayload, RelayCommandFromByte;
    var a0, b0 := a.(digest := 0), b.(digest := 0);
    var (a', running') := StampDigest(s, a, running);
    Zeroed(a0, a');
    BlankCovers(ToPayload(a'));
    assert running'[|running|..] == Blank(ToPayload(a0));
    if StampDigest(s, a, running).1 == StampDigest(s, b, running).1 {
      assert Blank(ToPayload(a0)) == running'[|running|..] == Blank(ToPayload(b0));
      BlankCovers(ToPayload(a0));
      BlankCovers(ToPayload(b0));
      Field(a0);
      Field(b0);
      FieldTells(ToPayload(a0), ToPayload(b0));
      RelayCellRoundTrip(a0);
      RelayCellRoundTrip(b0);
    }
  }

  lemma Zeroed(a: RelayCell, b: RelayCell)
    requires b == a.(digest := b.digest)
    ensures Blank(ToPayload(a)) == Blank(ToPayload(b))
  {
  }

  lemma Field(a: RelayCell)
    ensures FromBe32(ToPayload(a)[5..9]) == a.digest
  {
    assert ToPayload(a)[5..9] == Be32(a.digest);
    Be32RoundTrip(a.digest);
  }

  /** Two histories with one tag. */
  predicate OneTag(s: Suite, x: bytes, y: bytes) {
    x != y && s.tag(x) == s.tag(y)
  }

  /** Two payloads that one history takes with the same digest field are the same, or have two histories with one
      tag. */
  lemma TakenTells(s: Suite, p: Payload, q: Payload, running: bytes)
    requires RecognizedPayload(s, p, running) && RecognizedPayload(s, q, running)
    requires FromPayload(p).value.digest == FromPayload(q).value.digest
    ensures p == q || OneTag(s, running + Blank(p), running + Blank(q))
  {
    BlankCovers(p);
    BlankCovers(q);
    if Blank(p) == Blank(q) {
      FieldTells(p, q);
    } else {
      assert (running + Blank(p))[|running|..] == Blank(p) && (running + Blank(q))[|running|..] == Blank(q);
    }
  }

  /** So it is for what a relay keeps: of the cells that could arrive now with one digest it keeps one only. */
  lemma RelayKeepsOne(s: Suite, r: RelayCircuit, p: Payload, p': Payload, now: Instant)
    requires RelayPeel(s, r, p, now).2.Some? && RelayPeel(s, r, p', now).2.Some?
    requires RelayPeel(s, r, p, now).2.value.digest == RelayPeel(s, r, p', now).2.value.digest
    ensures var running := r.hop.forward.digest;
            || p == p'
            || OneTag(s, running + Blank(RelayPeel(s, r, p, now).1), running + Blank(RelayPeel(s, r, p', now).1))
  {
    hide Layer, Blank, FromPayload, IsRecognizedAt;
    var q, q' := RelayPeel(s, r, p, now).1, RelayPeel(s, r, p', now).1;
    TakenTells(s, q, q', r.hop.forward.digest);
    LayerInvolution(s, r.hop.forward.key, r.hop.forward.nonce, p);
    LayerInvolution(s, r.hop.forward.key, r.hop.forward.nonce, p');
  }

  /** And for what the client takes from one and the same hop, or from the far end. */
  lemma ClientTakesOne(s: Suite, o: Origin, p: Payload, p': Payload, now: Instant) returns (q: Payload, q': Payload)
    requires DecryptInbound(s, o, p, now).1.Some? && DecryptInbound(s, o, p', now).1.Some?
    requires DecryptInbound(s, o, p, now).1.value.0 == DecryptInbound(s, o, p', now).1.value.0
    requires DecryptInbound(s, o, p, now).1.value.1.digest == DecryptInbound(s, o, p', now).1.value.1.digest
    ensures var (from, rc) := DecryptInbound(s, o, p, now).1.value;
            && FromPayload(q) == Some(rc) && FromPayload(q') == Some(DecryptInbound(s, o, p', now).1.value.1)
            && (p == p' || OneTag(s, HistoryFor(o, from) + Blank(q), HistoryFor(o, from) + Blank(q')))
  {
    hide Layer, Blank, FromPayload, IsRecognizedAt, Bit, Flippers, DecryptInbound, RecognizedPayload;
    q := DecryptFlips(s, o, p, now);
    q' := DecryptFlips(s, o, p', now);
    var (from, rc) := DecryptInbound(s, o, p, now).1.value;
    TakenTells(s, q, q', HistoryFor(o, from));
    if q == q' {
      SameArrivals(s, p, p', q, Peeling(o, from));
    }
  }

  lemma SameArrivals(s: Suite, p: Payload, p': Payload, q: Payload, hs: seq<Half>)
    requires forall k, i :: 0 <= k < CELL_PAYLOAD && 0 <= i < 8 ==>
      && (Bit(q[k], i) <==> Bit(p[k], i) != (Flippers(s, hs, 0, |hs|, k, i) % 2 == 1))
      && (Bit(q[k], i) <==> Bit(p'[k], i) != (Flippers(s, hs, 0, |hs|, k, i) % 2 == 1))
    ensures p == p'
  {
    hide Bit, Flippers;
    forall k | 0 <= k < CELL_PAYLOAD
      ensures p[k] == p'[k]
    {
      assert Pow2(8) == 256;
      assert forall i :: 0 <= i < 8 ==> Bit(p[k], i) == Bit(p'[k], i);
      SameBits(p[k], p'[k], 8);
    }
  }
}

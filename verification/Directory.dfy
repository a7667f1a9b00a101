/** Directory documents (`phinet-core/src/directory.rs`): what is signed, and when a consensus is
    accepted. Strings are their UTF-8 bytes; Ed25519 verification is the parameter `verify`. */
module Directory {
  import opened Wrappers
  import opened Bytes
  import opened Circuit
  import opened Text

  datatype PeerEntry = PeerEntry(
    nodeId: bytes, host: bytes, port: u16, staticPub: bytes, flags: u32, bandwidth: u32, exitPolicy: bytes, family: bytes)

  datatype SrvCommitment = SrvCommitment(authorityPub: bytes, commitment: bytes)

  datatype AuthoritySignature = AuthoritySignature(authorityPub: bytes, sig: bytes)

  datatype Consensus = Consensus(
    networkId: bytes, srvCommitments: seq<SrvCommitment>, sharedRandom: bytes, validAfter: u64, validUntil: u64,
    peers: seq<PeerEntry>, signatures: seq<AuthoritySignature>)

  datatype Vote = Vote(
    networkId: bytes, validAfter: u64, validUntil: u64, peers: seq<PeerEntry>, authorityPub: bytes,
    srvCommit: bytes, srvReveal: bytes, sig: bytes)

  // ── Canonical bytes ─────────────────────────────────────────────────

  function ConsensusTag(): bytes {
    Ascii("phi-consensus-v1:")
  }

  function VoteTag(): bytes {
    Ascii("phi-vote-v1:")
  }

  /** `len() as u32`. */
  function Len32(n: nat): bytes {
    Be32(n % U32_LIMIT)
  }

  function LpString(s: bytes): bytes {
    Len32(|s|) + s
  }

  function PeerBytes(p: PeerEntry): bytes {
    LpString(p.nodeId) + (LpString(p.host) + (Be16(p.port) + (LpString(p.staticPub)
    + (Be32(p.flags) + (Be32(p.bandwidth) + (LpString(p.exitPolicy) + LpString(p.family)))))))
  }

  function PeersBytes(ps: seq<PeerEntry>): bytes {
    if ps == [] then [] else PeerBytes(ps[0]) + PeersBytes(ps[1..])
  }

  function CommitmentBytes(c: SrvCommitment): bytes {
    LpString(c.authorityPub) + LpString(c.commitment)
  }

  function CommitmentsBytes(cs: seq<SrvCommitment>): bytes {
    if cs == [] then [] else CommitmentBytes(cs[0]) + CommitmentsBytes(cs[1..])
  }

  function CanonicalConsensus(d: Consensus): bytes {
    ConsensusTag() + (LpString(d.networkId) + (Be64(d.validAfter) + (Be64(d.validUntil)
    + (Len32(|d.peers|) + (PeersBytes(d.peers) + (LpString(d.sharedRandom)
    + (Len32(|d.srvCommitments|) + CommitmentsBytes(d.srvCommitments))))))))
  }

  function CanonicalVote(v: Vote): bytes {
    VoteTag() + (LpString(v.networkId) + (Be64(v.validAfter) + (Be64(v.validUntil) + (LpString(v.authorityPub)
    + (Len32(|v.peers|) + (PeersBytes(v.peers) + (LpString(v.srvCommit) + LpString(v.srvReveal))))))))
  }

  lemma {:induction false} PeersBytesSnoc(ps: seq<PeerEntry>, p: PeerEntry)
    ensures PeersBytes(ps + [p]) == PeersBytes(ps) + PeerBytes(p)
  {
    hide PeerBytes;
    if ps == [] {
      assert ps + [p] == [p] && [p][1..] == [];
      assert PeersBytes([p]) == PeerBytes(p) + [];
    } else {
      assert (ps + [p])[1..] == ps[1..] + [p];
      PeersBytesSnoc(ps[1..], p);
    }
  }

  lemma {:induction false} CommitmentsBytesSnoc(cs: seq<SrvCommitment>, c: SrvCommitment)
    ensures CommitmentsBytes(cs + [c]) == CommitmentsBytes(cs) + CommitmentBytes(c)
  {
    hide CommitmentBytes;
    if cs == [] {
      assert cs + [c] == [c] && [c][1..] == [];
      assert CommitmentsBytes([c]) == CommitmentBytes(c) + [];
    } else {
      assert (cs + [c])[1..] == cs[1..] + [c];
      CommitmentsBytesSnoc(cs[1..], c);
    }
  }

  /** `canonical_consensus_bytes`: the writers append to one buffer. */
  method CanonicalConsensusBytes(d: Consensus) returns (out: bytes)
    ensures out == CanonicalConsensus(d)
  {
    hide PeerBytes, LpString, CommitmentBytes, Len32, Be64, ConsensusTag;
    out := ConsensusTag() + LpString(d.networkId) + Be64(d.validAfter) + Be64(d.validUntil) + Len32(|d.peers|);
    ghost var head := out;
    assert head + [] == head;
    for i := 0 to |d.peers|
      invariant out == head + PeersBytes(d.peers[..i])
    {
      PeersBytesSnoc(d.peers[..i], d.peers[i]);
      assert d.peers[..i] + [d.peers[i]] == d.peers[..i + 1];
      out := out + PeerBytes(d.peers[i]);
    }
    assert d.peers[..|d.peers|] == d.peers;
    out := out + LpString(d.sharedRandom) + Len32(|d.srvCommitments|);
    head := out;
    assert head + [] == head;
    for i := 0 to |d.srvCommitments|
      invariant out == head + CommitmentsBytes(d.srvCommitments[..i])
    {
      CommitmentsBytesSnoc(d.srvCommitments[..i], d.srvCommitments[i]);
      assert d.srvCommitments[..i] + [d.srvCommitments[i]] == d.srvCommitments[..i + 1];
      out := out + CommitmentBytes(d.srvCommitments[i]);
    }
    assert d.srvCommitments[..|d.srvCommitments|] == d.srvCommitments;
  }

  /** `canonical_vote_bytes`. */
  method CanonicalVoteBytes(v: Vote) returns (out: bytes)
    ensures out == CanonicalVote(v)
  {
    hide PeerBytes, LpString, Len32, Be64, VoteTag;
    out := VoteTag() + LpString(v.networkId) + Be64(v.validAfter) + Be64(v.validUntil) + LpString(v.authorityPub)
    + Len32(|v.peers|);
    ghost var head := out;
    assert head + [] == head;
    for i := 0 to |v.peers|
      invariant out == head + PeersBytes(v.peers[..i])
    {
      PeersBytesSnoc(v.peers[..i], v.peers[i]);
      assert v.peers[..i] + [v.peers[i]] == v.peers[..i + 1];
      out := out + PeerBytes(v.peers[i]);
    }
    assert v.peers[..|v.peers|] == v.peers;
    out := out + LpString(v.srvCommit) + LpString(v.srvReveal);
  }

  // ── The bytes are unambiguous ───────────────────────────────────────

  lemma Len32Injective(m: nat, n: nat)
    requires m < U32_LIMIT && n < U32_LIMIT && Len32(m) == Len32(n)
    ensures m == n
  {
    assert m % U32_LIMIT == m && n % U32_LIMIT == n;
    hide Be32, FromBe32;
    Be32RoundTrip(m);
    Be32RoundTrip(n);
  }

  lemma LpStringSplits(a: bytes, x: bytes, b: bytes, y: bytes)
    requires |a| < U32_LIMIT && |b| < U32_LIMIT && LpString(a) + x == LpString(b) + y
    ensures a == b && x == y
  {
    assert LpString(a) + x == Len32(|a|) + (a + x);
    assert LpString(b) + y == Len32(|b|) + (b + y);
    SplitSame(Len32(|a|), a + x, Len32(|b|), b + y);
    Len32Injective(|a|, |b|);
    SplitSame(a, x, b, y);
  }

  /** Lengths are cut to 32 bits, so beyond that two strings can read the same. */
  lemma LengthsWrap(s: bytes)
    requires |s| == U32_LIMIT
    ensures LpString(s) == LpString([]) + s
  {
    assert LpString([]) == Len32(0) + [] == Len32(0);
  }

  /** Two peers that read the same although their node ids and hosts differ. */
  lemma LongPeersCollide(p: PeerEntry, s: bytes)
    requires |s| == U32_LIMIT && s == Zeros(U32_LIMIT)
    ensures PeerBytes(p.(nodeId := s, host := [])) == PeerBytes(p.(nodeId := [], host := s))
  {
    LengthsWrap(s);
    var empty := LpString([]);
    assert empty == Zeros(4) by {
      assert Len32(0) == Zeros(4);
    }
    assert LpString(s) + empty == empty + LpString(s) by {
      assert empty + (s + empty) == empty + (empty + s) by {
        assert s + empty == Zeros(U32_LIMIT + 4) == empty + s;
      }
    }
    hide LpString, Be16, Be32;
    PeerThenIs(p.(nodeId := s, host := []), []);
    PeerThenIs(p.(nodeId := [], host := s), []);
    var rest := Be16(p.port) + (LpString(p.staticPub)
                + (Be32(p.flags) + (Be32(p.bandwidth) + (LpString(p.exitPolicy) + (LpString(p.family) + [])))));
    Assoc(LpString(s), empty, rest);
    Assoc(empty, LpString(s), rest);
    assert PeerBytes(p.(nodeId := s, host := [])) + [] == PeerBytes(p.(nodeId := s, host := []));
    assert PeerBytes(p.(nodeId := [], host := s)) + [] == PeerBytes(p.(nodeId := [], host := s));
  }

  /** So the bound is needed: beyond it two different consensuses sign the same bytes. */
  lemma LongConsensusesCollide(d: Consensus, p: PeerEntry)
    ensures var s := Zeros(U32_LIMIT);
            var a, b := d.(peers := [p.(nodeId := s, host := [])]), d.(peers := [p.(nodeId := [], host := s)]);
            a.peers != b.peers && CanonicalConsensus(a) == CanonicalConsensus(b)
  {
    var s := Zeros(U32_LIMIT);
    var a, b := p.(nodeId := s, host := []), p.(nodeId := [], host := s);
    LongPeersCollide(p, s);
    assert a.host != b.host by {
      assert |s| == U32_LIMIT;
    }
    hide PeerBytes, LpString, Be64, Len32;
    assert PeersBytes([a]) == PeersBytes([b]) by {
      assert [a][1..] == [] && [b][1..] == [];
    }
  }

  predicate SmallPeer(p: PeerEntry) {
    && |p.nodeId| < U32_LIMIT && |p.host| < U32_LIMIT && |p.staticPub| < U32_LIMIT
    && |p.exitPolicy| < U32_LIMIT && |p.family| < U32_LIMIT
  }

  predicate SmallConsensus(d: Consensus) {
    && |d.networkId| < U32_LIMIT && |d.sharedRandom| < U32_LIMIT && |d.peers| < U32_LIMIT && |d.srvCommitments| < U32_LIMIT
    && (forall i :: 0 <= i < |d.peers| ==> SmallPeer(d.peers[i]))
    && (forall i :: 0 <= i < |d.srvCommitments| ==>
      |d.srvCommitments[i].authorityPub| < U32_LIMIT && |d.srvCommitments[i].commitment| < U32_LIMIT)
  }

  predicate SmallVote(v: Vote) {
    && |v.networkId| < U32_LIMIT && |v.authorityPub| < U32_LIMIT && |v.srvCommit| < U32_LIMIT && |v.srvReveal| < U32_LIMIT
    && |v.peers| < U32_LIMIT && (forall i :: 0 <= i < |v.peers| ==> SmallPeer(v.peers[i]))
  }

  lemma Be16Splits(a: u16, x: bytes, b: u16, y: bytes)
    requires Be16(a) + x == Be16(b) + y
    ensures a == b && x == y
  {
    SplitSame(Be16(a), x, Be16(b), y);
    Be16RoundTrip(a);
    Be16RoundTrip(b);
  }

  lemma Be32Splits(a: u32, x: bytes, b: u32, y: bytes)
    requires Be32(a) + x == Be32(b) + y
    ensures a == b && x == y
  {
    SplitSame(Be32(a), x, Be32(b), y);
    Be32RoundTrip(a);
    Be32RoundTrip(b);
  }

  lemma Be64Splits(a: u64, x: bytes, b: u64, y: bytes)
    requires Be64(a) + x == Be64(b) + y
    ensures a == b && x == y
  {
    SplitSame(Be64(a), x, Be64(b), y);
    Be64RoundTrip(a);
    Be64RoundTrip(b);
  }

  lemma Assoc(a: bytes, b: bytes, c: bytes)
    ensures (a + b) + c == a + (b + c)
  {
  }

  /** A peer's bytes followed by anything. */
  function PeerThen(p: PeerEntry, x: bytes): bytes {
    LpString(p.nodeId) + (LpString(p.host) + (Be16(p.port) + (LpString(p.staticPub)
    + (Be32(p.flags) + (Be32(p.bandwidth) + (LpString(p.exitPolicy) + (LpString(p.family) + x)))))))
  }

  lemma PeerThenIs(p: PeerEntry, x: bytes)
    ensures PeerBytes(p) + x == PeerThen(p, x)
  {
    hide LpString, Be16, Be32;
    var t8 := LpString(p.family);
    var t7 := LpString(p.exitPolicy) + t8;
    var t6 := Be32(p.bandwidth) + t7;
    var t5 := Be32(p.flags) + t6;
    var t4 := LpString(p.staticPub) + t5;
    var t3 := Be16(p.port) + t4;
    var t2 := LpString(p.host) + t3;
    Assoc(LpString(p.nodeId), t2, x);
    Assoc(LpString(p.host), t3, x);
    Assoc(Be16(p.port), t4, x);
    Assoc(LpString(p.staticPub), t5, x);
    Assoc(Be32(p.flags), t6, x);
    Assoc(Be32(p.bandwidth), t7, x);
    Assoc(LpString(p.exitPolicy), t8, x);
  }

  lemma PeerSplits(p: PeerEntry, x: bytes, q: PeerEntry, y: bytes)
    requires SmallPeer(p) && SmallPeer(q) && PeerThen(p, x) == PeerThen(q, y)
    ensures p == q && x == y
  {
    hide LpString, Be16, Be32;
    var p8, q8 := LpString(p.family) + x, LpString(q.family) + y;
    var p7, q7 := LpString(p.exitPolicy) + p8, LpString(q.exitPolicy) + q8;
    var p6, q6 := Be32(p.bandwidth) + p7, Be32(q.bandwidth) + q7;
    var p5, q5 := Be32(p.flags) + p6, Be32(q.flags) + q6;
    var p4, q4 := LpString(p.staticPub) + p5, LpString(q.staticPub) + q5;
    var p3, q3 := Be16(p.port) + p4, Be16(q.port) + q4;
    var p2, q2 := LpString(p.host) + p3, LpString(q.host) + q3;
    LpStringSplits(p.nodeId, p2, q.nodeId, q2);
    LpStringSplits(p.host, p3, q.host, q3);
    Be16Splits(p.port, p4, q.port, q4);
    LpStringSplits(p.staticPub, p5, q.staticPub, q5);
    Be32Splits(p.flags, p6, q.flags, q6);
    Be32Splits(p.bandwidth, p7, q.bandwidth, q7);
    LpStringSplits(p.exitPolicy, p8, q.exitPolicy, q8);
    LpStringSplits(p.family, x, q.family, y);
  }

  lemma {:induction false} PeersSplit(ps: seq<PeerEntry>, x: bytes, qs: seq<PeerEntry>, y: bytes)
    requires |ps| == |qs| && PeersBytes(ps) + x == PeersBytes(qs) + y
    requires forall i :: 0 <= i < |ps| ==> SmallPeer(ps[i]) && SmallPeer(qs[i])
    ensures ps == qs && x == y
  {
    hide PeerBytes, PeerThen, SmallPeer;
    if ps == [] {
      assert [] + x == x && [] + y == y;
    } else {
      var p, q, pt, qt := ps[0], qs[0], PeersBytes(ps[1..]), PeersBytes(qs[1..]);
      Assoc(PeerBytes(p), pt, x);
      Assoc(PeerBytes(q), qt, y);
      PeerThenIs(p, pt + x);
      PeerThenIs(q, qt + y);
      PeerSplits(p, pt + x, q, qt + y);
      PeersSplit(ps[1..], x, qs[1..], y);
      assert ps == [p] + ps[1..] && qs == [q] + qs[1..];
    }
  }

  lemma {:induction false} CommitmentsSplit(cs: seq<SrvCommitment>, ds: seq<SrvCommitment>)
    requires |cs| == |ds| && CommitmentsBytes(cs) == CommitmentsBytes(ds)
    requires forall i :: 0 <= i < |cs| ==> |cs[i].authorityPub| < U32_LIMIT && |cs[i].commitment| < U32_LIMIT
    requires forall i :: 0 <= i < |ds| ==> |ds[i].authorityPub| < U32_LIMIT && |ds[i].commitment| < U32_LIMIT
    ensures cs == ds
  {
    hide LpString;
    if cs != [] {
      var c, d, ct, dt := cs[0], ds[0], CommitmentsBytes(cs[1..]), CommitmentsBytes(ds[1..]);
      Assoc(LpString(c.authorityPub), LpString(c.commitment), ct);
      Assoc(LpString(d.authorityPub), LpString(d.commitment), dt);
      LpStringSplits(c.authorityPub, LpString(c.commitment) + ct, d.authorityPub, LpString(d.commitment) + dt);
      LpStringSplits(c.commitment, ct, d.commitment, dt);
      CommitmentsSplit(cs[1..], ds[1..]);
      assert cs == [c] + cs[1..] && ds == [d] + ds[1..];
    }
  }

  /** Two consensuses that sign the same bytes differ in their signatures at most. */
  lemma ConsensusUnambiguous(c: Consensus, d: Consensus)
    requires SmallConsensus(c) && SmallConsensus(d) && CanonicalConsensus(c) == CanonicalConsensus(d)
    ensures c.(signatures := []) == d.(signatures := [])
  {
    hide LpString, Be64, Len32, PeersBytes, CommitmentsBytes, ConsensusTag;
    var c8, d8 := Len32(|c.srvCommitments|) + CommitmentsBytes(c.srvCommitments),
                  Len32(|d.srvCommitments|) + CommitmentsBytes(d.srvCommitments);
    var c7, d7 := LpString(c.sharedRandom) + c8, LpString(d.sharedRandom) + d8;
    var c6, d6 := PeersBytes(c.peers) + c7, PeersBytes(d.peers) + d7;
    var c5, d5 := Len32(|c.peers|) + c6, Len32(|d.peers|) + d6;
    var c4, d4 := Be64(c.validUntil) + c5, Be64(d.validUntil) + d5;
    var c3, d3 := Be64(c.validAfter) + c4, Be64(d.validAfter) + d4;
    SplitSame(ConsensusTag(), LpString(c.networkId) + c3, ConsensusTag(), LpString(d.networkId) + d3);
    LpStringSplits(c.networkId, c3, d.networkId, d3);
    Be64Splits(c.validAfter, c4, d.validAfter, d4);
    Be64Splits(c.validUntil, c5, d.validUntil, d5);
    LenSplits(|c.peers|, c6, |d.peers|, d6);
    PeersSplit(c.peers, c7, d.peers, d7);
    LpStringSplits(c.sharedRandom, c8, d.sharedRandom, d8);
    LenSplits(|c.srvCommitments|, CommitmentsBytes(c.srvCommitments), |d.srvCommitments|, CommitmentsBytes(d.srvCommitments));
    CommitmentsSplit(c.srvCommitments, d.srvCommitments);
  }

  lemma LenSplits(m: nat, x: bytes, n: nat, y: bytes)
    requires m < U32_LIMIT && n < U32_LIMIT && Len32(m) + x == Len32(n) + y
    ensures m == n && x == y
  {
    SplitSame(Len32(m), x, Len32(n), y);
    Len32Injective(m, n);
  }

  /** Two votes that sign the same bytes differ in their signature at most. */
  lemma VoteUnambiguous(v: Vote, u: Vote)
    requires SmallVote(v) && SmallVote(u) && CanonicalVote(v) == CanonicalVote(u)
    ensures v.(sig := []) == u.(sig := [])
  {
    hide LpString, Be64, Len32, PeersBytes, VoteTag;
    var v8, u8 := LpString(v.srvCommit) + LpString(v.srvReveal), LpString(u.srvCommit) + LpString(u.srvReveal);
    var v7, u7 := PeersBytes(v.peers) + v8, PeersBytes(u.peers) + u8;
    var v6, u6 := Len32(|v.peers|) + v7, Len32(|u.peers|) + u7;
    var v5, u5 := LpString(v.authorityPub) + v6, LpString(u.authorityPub) + u6;
    var v4, u4 := Be64(v.validUntil) + v5, Be64(u.validUntil) + u5;
    var v3, u3 := Be64(v.validAfter) + v4, Be64(u.validAfter) + u4;
    SplitSame(VoteTag(), LpString(v.networkId) + v3, VoteTag(), LpString(u.networkId) + u3);
    LpStringSplits(v.networkId, v3, u.networkId, u3);
    Be64Splits(v.validAfter, v4, u.validAfter, u4);
    Be64Splits(v.validUntil, v5, u.validUntil, u5);
    LpStringSplits(v.authorityPub, v6, u.authorityPub, u6);
    LenSplits(|v.peers|, v7, |u.peers|, u7);
    PeersSplit(v.peers, v8, u.peers, u8);
    LpStringSplits(v.srvCommit, LpString(v.srvReveal), u.srvCommit, LpString(u.srvReveal));
    assert LpString(v.srvReveal) + [] == LpString(u.srvReveal) + [];
    LpStringSplits(v.srvReveal, [], u.srvReveal, []);
  }

  /** A signature on a vote is never one on a consensus. */
  lemma TagsSeparate(d: Consensus, v: Vote)
    ensures CanonicalConsensus(d) != CanonicalVote(v)
  {
    hide LpString, Be64, Len32, PeersBytes, CommitmentsBytes;
    assert CanonicalConsensus(d)[4] == 'c' as int;
    assert CanonicalVote(v)[4] == 'v' as int;
  }

  // ── Accepting a consensus ───────────────────────────────────────────

  datatype DirError = NotYetValid | Expired | TooFewSignatures(found: nat)

  /** Ed25519 verification of a signature on a message under a key, including that the key is a point. */
  type Verify = (Key32, bytes, bytes) -> bool

  /** At least two thirds, rounded up. */
  function ThresholdFor(n: nat): (t: nat)
    ensures 3 * t >= 2 * n && (t > 0 ==> 3 * (t - 1) < 2 * n)
  {
    (2 * n + 2) / 3
  }

  /** The trusted authority whose valid signature this is, if it is one. */
  function SignerOf(a: AuthoritySignature, trusted: seq<Key32>, canonical: bytes, verify: Verify): Option<Key32> {
    var key := HexDecodeExactly(a.authorityPub, 32);
    var sig := HexDecodeExactly(a.sig, 64);
    if key.Some? && key.value in trusted && sig.Some? && verify(key.value, canonical, sig.value) then key else None
  }

  /** The trusted authorities with a valid signature among these. */
  function SignersAmong(sigs: seq<AuthoritySignature>, trusted: seq<Key32>, canonical: bytes, verify: Verify): set<Key32> {
    set i | 0 <= i < |sigs| && SignerOf(sigs[i], trusted, canonical, verify).Some?
      :: SignerOf(sigs[i], trusted, canonical, verify).value
  }

  lemma SignersSnoc(sigs: seq<AuthoritySignature>, a: AuthoritySignature, trusted: seq<Key32>, canonical: bytes, verify: Verify)
    ensures var signer := SignerOf(a, trusted, canonical, verify);
            var more := if signer.Some? then {signer.value} else {};
            SignersAmong(sigs + [a], trusted, canonical, verify) == SignersAmong(sigs, trusted, canonical, verify) + more
  {
    hide SignerOf;
    assert (sigs + [a])[|sigs|] == a;
    assert forall i :: 0 <= i < |sigs| ==> (sigs + [a])[i] == sigs[i];
  }

  lemma SignersNone(trusted: seq<Key32>, canonical: bytes, verify: Verify)
    ensures SignersAmong([], trusted, canonical, verify) == {}
  {
  }

  /** The trusted authorities with a valid signature on the document. */
  function Signers(d: Consensus, trusted: seq<Key32>, verify: Verify): set<Key32> {
    SignersAmong(d.signatures, trusted, CanonicalConsensus(d), verify)
  }

  /** `k` is a trusted authority's key, and one of the document's signatures is its valid signature on the
      canonical bytes. */
  predicate HasSigned(d: Consensus, trusted: seq<Key32>, verify: Verify, k: Key32) {
    && k in trusted
    && exists a :: && a in d.signatures && HexDecodeExactly(a.authorityPub, 32) == Some(k)
                   && HexDecodeExactly(a.sig, 64).Some? && verify(k, CanonicalConsensus(d), HexDecodeExactly(a.sig, 64).value)
  }

  /** Those are the keys that are counted, each once. */
  lemma SignersMeaning(d: Consensus, trusted: seq<Key32>, verify: Verify, k: Key32)
    ensures k in Signers(d, trusted, verify) <==> HasSigned(d, trusted, verify, k)
  {
    hide CanonicalConsensus, HexDecodeExactly;
    if HasSigned(d, trusted, verify, k) {
      var a :| && a in d.signatures && HexDecodeExactly(a.authorityPub, 32) == Some(k)
               && HexDecodeExactly(a.sig, 64).Some? && verify(k, CanonicalConsensus(d), HexDecodeExactly(a.sig, 64).value);
      var i :| 0 <= i < |d.signatures| && d.signatures[i] == a;
      assert SignerOf(d.signatures[i], trusted, CanonicalConsensus(d), verify) == Some(k);
    }
  }

  lemma SignersAre(d: Consensus, trusted: seq<Key32>, verify: Verify)
    ensures Signers(d, trusted, verify) == set k | k in trusted && HasSigned(d, trusted, verify, k)
  {
    hide Signers, HasSigned;
    forall k
      ensures k in Signers(d, trusted, verify) <==> k in trusted && HasSigned(d, trusted, verify, k)
    {
      SignersMeaning(d, trusted, verify, k);
      if HasSigned(d, trusted, verify, k) {
        SignedIsTrusted(d, trusted, verify, k);
      }
    }
  }

  lemma SignedIsTrusted(d: Consensus, trusted: seq<Key32>, verify: Verify, k: Key32)
    requires HasSigned(d, trusted, verify, k)
    ensures k in trusted
  {
  }

  function VerifyConsensusAnswer(d: Consensus, trusted: seq<Key32>, min: nat, now: nat, verify: Verify): Result<(), DirError> {
    if now < d.validAfter then Err(NotYetValid)
    else if now > d.validUntil then Err(Expired)
    else if |Signers(d, trusted, verify)| < min then Err(TooFewSignatures(|Signers(d, trusted, verify)|))
    else Ok(())
  }

  /** `verify_consensus`: duplicate, malformed and unknown signatures are skipped. */
  method VerifyConsensus(d: Consensus, trusted: seq<Key32>, min: nat, now: nat, verify: Verify)
    returns (r: Result<(), DirError>)
    ensures r == VerifyConsensusAnswer(d, trusted, min, now, verify)
    ensures var counted := set k | k in trusted && HasSigned(d, trusted, verify, k);
            && (r.Ok? <==> d.validAfter <= now <= d.validUntil && |counted| >= min)
            && (r == Err(NotYetValid) <==> now < d.validAfter)
            && (r == Err(Expired) <==> d.validAfter <= now && d.validUntil < now)
            && (d.validAfter <= now <= d.validUntil && |counted| < min ==> r == Err(TooFewSignatures(|counted|)))
  {
    SignersAre(d, trusted, verify);
    hide HasSigned;
    if now < d.validAfter {
      return Err(NotYetValid);
    }
    if now > d.validUntil {
      return Err(Expired);
    }
    hide CanonicalConsensus, SignerOf, SignersAmong;
    var unsigned := d.(signatures := []);
    SignaturesNotSigned(d);
    var canonical := CanonicalConsensusBytes(unsigned);
    var counted: set<Key32> := {};
    assert counted == SignersAmong([], trusted, canonical, verify) by {
      SignersNone(trusted, canonical, verify);
    }
    for i := 0 to |d.signatures|
      invariant counted == SignersAmong(d.signatures[..i], trusted, canonical, verify)
    {
      var a := d.signatures[i];
      assert d.signatures[..i + 1] == d.signatures[..i] + [a];
      SignersSnoc(d.signatures[..i], a, trusted, canonical, verify);
      var signer := CheckSignature(a, trusted, canonical, verify);
      if signer.Some? {
        counted := counted + {signer.value};
      }
    }
    assert d.signatures[..|d.signatures|] == d.signatures;
    if |counted| < min {
      return Err(TooFewSignatures(|counted|));
    }
    return Ok(());
  }

  lemma SignaturesNotSigned(d: Consensus)
    ensures CanonicalConsensus(d.(signatures := [])) == CanonicalConsensus(d)
  {
  }

  /** The body of the loop, a `continue` being `None`. */
  method CheckSignature(a: AuthoritySignature, trusted: seq<Key32>, canonical: bytes, verify: Verify)
    returns (signer: Option<Key32>)
    ensures signer == SignerOf(a, trusted, canonical, verify)
  {
    var key := HexDecodeExactly(a.authorityPub, 32);
    if key.None? {
      return None;
    }
    var k: Key32 := key.value;
    if k !in trusted {
      return None;
    }
    var sig := HexDecodeExactly(a.sig, 64);
    if sig.None? || !verify(k, canonical, sig.value) {
      return None;
    }
    return Some(k);
  }

  lemma SignersTrusted(d: Consensus, trusted: seq<Key32>, verify: Verify)
    ensures Signers(d, trusted, verify) <= KeysIn(trusted)
  {
    hide CanonicalConsensus;
  }

  function KeysIn(trusted: seq<Key32>): set<Key32> {
    set k | k in trusted
  }

  lemma {:induction false} FewKeys(trusted: seq<Key32>)
    ensures |KeysIn(trusted)| <= |trusted|
  {
    if trusted != [] {
      FewKeys(trusted[1..]);
      assert trusted == [trusted[0]] + trusted[1..];
      assert KeysIn(trusted) == {trusted[0]} + KeysIn(trusted[1..]);
    }
  }

  lemma Overlap<T>(a: set<T>, b: set<T>, all: set<T>)
    requires a <= all && b <= all
    ensures |a * b| >= |a| + |b| - |all|
  {
    assert |a + b| == |a| + |b| - |a * b|;
    assert all == (a + b) + (all - (a + b));
  }

  /** Quorum intersection. Two documents accepted with the usual threshold, at whatever times, carry valid
      signatures of at least a third of the trusted authorities in common. */
  lemma QuorumIntersection(c: Consensus, d: Consensus, trusted: seq<Key32>, now: nat, later: nat, verify: Verify)
    requires VerifyConsensusAnswer(c, trusted, ThresholdFor(|trusted|), now, verify).Ok?
    requires VerifyConsensusAnswer(d, trusted, ThresholdFor(|trusted|), later, verify).Ok?
    ensures var both := set k | k in trusted && HasSigned(c, trusted, verify, k) && HasSigned(d, trusted, verify, k);
            3 * |both| >= |trusted|
  {
    hide CanonicalConsensus, HasSigned;
    SignersTrusted(c, trusted, verify);
    SignersTrusted(d, trusted, verify);
    FewKeys(trusted);
    Overlap(Signers(c, trusted, verify), Signers(d, trusted, verify), KeysIn(trusted));
    SignersAre(c, trusted, verify);
    SignersAre(d, trusted, verify);
    var both := set k | k in trusted && HasSigned(c, trusted, verify, k) && HasSigned(d, trusted, verify, k);
    assert both == Signers(c, trusted, verify) * Signers(d, trusted, verify);
  }
}

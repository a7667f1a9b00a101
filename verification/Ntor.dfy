/** Key agreement: the ntor circuit handshake (`phinet-core/src/ntor.rs`, after section 5.1.4 of
    tor-spec) and the rendezvous end-to-end handshake (`phinet-core/src/rendezvous.rs`).

    X25519, HKDF and HMAC are foreign calls, carried as functions in `Dh`. The one law the code relies
    on is that both ends of an exchange compute the same shared secret. */
module Ntor {
  import opened Wrappers
  import opened Bytes
  import opened Circuit

  type Key104 = k: bytes | |k| == 104 witness Zeros(104)

  datatype Dh = Dh(
    pub: Key32 -> Key32,                      // public key of a secret
    shared: (Key32, Key32) -> Key32,          // secret, peer's public key
    extract: (bytes, bytes) -> Key32,         // HKDF-Extract: salt, input
    expand32: (Key32, bytes) -> Key32,        // HKDF-Expand: key, info
    expand104: (Key32, bytes) -> Key104,
    hmac: (Key32, bytes) -> Key32)

  ghost predicate DhLaw(d: Dh) {
    forall a, b :: d.shared(a, d.pub(b)) == d.shared(b, d.pub(a))
  }

  datatype AuthError = BadTag | NotAddressed

  /** Byte strings such as `PROTOID`, told apart by their text in the source. */
  datatype Labels = Labels(
    protoId: bytes, tKey: bytes, tVerify: bytes, tExpand: bytes, mServer: bytes,
    hsProtoId: bytes, hsSalt: bytes, hsExpand: bytes, hsAuth: bytes)

  // ── ntor ────────────────────────────────────────────────────────────

  datatype NtorKeys = NtorKeys(
    forwardDigestSeed: bytes, backwardDigestSeed: bytes, forwardKey: Key32, backwardKey: Key32)

  function NtorKeysFromBytes(km: Key104): NtorKeys {
    NtorKeys(km[0..20], km[20..40], km[40..72], km[72..104])
  }

  datatype ClientHandshake = ClientHandshake(xPriv: Key32, xPub: Key32, serverId: Key32, serverB: Key32)

  const CLIENT_HANDSHAKE_LEN: nat := 96
  const SERVER_HANDSHAKE_LEN: nat := 64

  type ClientMsg = m: bytes | |m| == CLIENT_HANDSHAKE_LEN witness Zeros(96)
  type ServerMsg = m: bytes | |m| == SERVER_HANDSHAKE_LEN witness Zeros(64)

  /** `xPriv` is the fresh ephemeral secret. */
  function ClientHandshakeStart(d: Dh, serverId: Key32, serverB: Key32, xPriv: Key32): (ClientHandshake, ClientMsg) {
    var xPub := d.pub(xPriv);
    (ClientHandshake(xPriv, xPub, serverId, serverB), serverId + serverB + xPub)
  }

  function DeriveSeedVerify(
    d: Dh, l: Labels, ephem: bytes, static_: bytes, id: bytes, b: bytes, x: bytes, y: bytes): (Key32, Key32)
  {
    var seed := d.extract(l.tKey, ephem + static_ + id + b + x + y + l.protoId);
    (seed, d.expand32(seed, l.tVerify))
  }

  function ComputeAuth(d: Dh, l: Labels, verify: Key32, id: bytes, b: bytes, y: bytes, x: bytes): Key32 {
    d.hmac(verify, id + b + y + x + l.protoId + l.mServer)
  }

  function ClientHandshakeFinish(d: Dh, l: Labels, hs: ClientHandshake, msg: ServerMsg): Result<NtorKeys, AuthError> {
    var y: Key32, auth: Key32 := msg[0..32], msg[32..64];
    var (seed, verify) := DeriveSeedVerify(
      d, l, d.shared(hs.xPriv, y), d.shared(hs.xPriv, hs.serverB), hs.serverId, hs.serverB, hs.xPub, y);
    if auth != ComputeAuth(d, l, verify, hs.serverId, hs.serverB, y, hs.xPub) then Err(BadTag)
    else Ok(NtorKeysFromBytes(d.expand104(seed, l.tExpand)))
  }

  /** `yPriv` is the fresh ephemeral secret. */
  function ServerHandshake(
    d: Dh, l: Labels, serverId: Key32, serverBPub: Key32, serverBSecret: Key32, msg: ClientMsg, yPriv: Key32)
    : Result<(NtorKeys, ServerMsg), AuthError>
  {
    if msg[0..32] != serverId || msg[32..64] != serverBPub then Err(NotAddressed)
    else
      var x: Key32 := msg[64..96];
      var y := d.pub(yPriv);
      var (seed, verify) := DeriveSeedVerify(
        d, l, d.shared(yPriv, x), d.shared(serverBSecret, x), serverId, serverBPub, x, y);
      Ok((NtorKeysFromBytes(d.expand104(seed, l.tExpand)),
          y + ComputeAuth(d, l, verify, serverId, serverBPub, y, x)))
  }

  /** An honest exchange: the server accepts, the client accepts the reply, and both hold the same
      keys. A server that is not the one addressed refuses. */
  lemma NtorAgreement(
    d: Dh, l: Labels, serverId: Key32, bSecret: Key32, xPriv: Key32, yPriv: Key32, myId: Key32, mySecret: Key32)
    requires DhLaw(d)
    ensures var (hs, msg) := ClientHandshakeStart(d, serverId, d.pub(bSecret), xPriv);
            var r := ServerHandshake(d, l, serverId, d.pub(bSecret), bSecret, msg, yPriv);
            r.Ok? && ClientHandshakeFinish(d, l, hs, r.value.1) == Ok(r.value.0)
    ensures var (hs, msg) := ClientHandshakeStart(d, serverId, d.pub(bSecret), xPriv);
            ServerHandshake(d, l, myId, d.pub(mySecret), mySecret, msg, yPriv).Ok?
            <==> myId == serverId && d.pub(mySecret) == d.pub(bSecret)
  {
    var (hs, msg) := ClientHandshakeStart(d, serverId, d.pub(bSecret), xPriv);
    assert msg[0..32] == serverId && msg[32..64] == d.pub(bSecret) && msg[64..96] == d.pub(xPriv);
    assert d.shared(xPriv, d.pub(yPriv)) == d.shared(yPriv, d.pub(xPriv));
    assert d.shared(xPriv, d.pub(bSecret)) == d.shared(bSecret, d.pub(xPriv));
    var reply := ServerHandshake(d, l, serverId, d.pub(bSecret), bSecret, msg, yPriv).value.1;
    assert reply[0..32] == d.pub(yPriv);
    var (seed, verify) := DeriveSeedVerify(
      d, l, d.shared(yPriv, d.pub(xPriv)), d.shared(bSecret, d.pub(xPriv)), serverId, d.pub(bSecret), d.pub(xPriv), d.pub(yPriv));
    assert reply[32..64] == ComputeAuth(d, l, verify, serverId, d.pub(bSecret), d.pub(yPriv), d.pub(xPriv));
  }

  /** The law is satisfiable: it holds of the exchange whose shared secret is constant. */
  lemma DhLawIsSatisfiable(k: Key32, k104: Key104)
    ensures DhLaw(Dh(_ => k, (_, _) => k, (_, _) => k, (_, _) => k, (_, _) => k104, (_, _) => k))
  {
  }

  /** `HopState::from_ntor`. */
  function HopFromNtor(keys: NtorKeys): HopState {
    HopState(Half(keys.forwardKey, 0, keys.forwardDigestSeed), Half(keys.backwardKey, 0, keys.backwardDigestSeed))
  }

  // ── Rendezvous end to end ───────────────────────────────────────────

  datatype E2EKeys = E2EKeys(clientToHsKey: Key32, hsToClientKey: Key32, c2hDigestSeed: bytes, h2cDigestSeed: bytes)

  function ExpandE2E(d: Dh, l: Labels, xy: bytes, xb: bytes, x: bytes, y: bytes, b: bytes): E2EKeys {
    var km := d.expand104(d.extract(l.hsSalt, xy + xb + x + y + b + l.hsProtoId), l.hsExpand);
    E2EKeys(km[0..32], km[32..64], km[64..84], km[84..104])
  }

  function ComputeE2EAuth(d: Dh, l: Labels, keys: E2EKeys, x: bytes, y: bytes, b: bytes): Key32 {
    d.hmac(keys.clientToHsKey, l.hsProtoId + l.hsAuth + x + y + b)
  }

  /** The hidden service's side: keys, ephemeral public key and tag for RENDEZVOUS1. */
  function HsFinalize(d: Dh, l: Labels, bSecret: Key32, bPub: Key32, x: Key32, yPriv: Key32): (E2EKeys, Key32, Key32) {
    var y := d.pub(yPriv);
    var keys := ExpandE2E(d, l, d.shared(yPriv, x), d.shared(bSecret, x), x, y, bPub);
    (keys, y, ComputeE2EAuth(d, l, keys, x, y, bPub))
  }

  function ClientFinalize(d: Dh, l: Labels, xPriv: Key32, x: Key32, bPub: Key32, y: Key32, auth: Key32): Result<E2EKeys, AuthError> {
    var keys := ExpandE2E(d, l, d.shared(xPriv, y), d.shared(xPriv, bPub), x, y, bPub);
    if ComputeE2EAuth(d, l, keys, x, y, bPub) != auth then Err(BadTag) else Ok(keys)
  }

  /** `HopState::from_e2e_keys`: each end's forward is what it sends. */
  function HopFromE2E(keys: E2EKeys, isClient: bool): HopState {
    var c2h := Half(keys.clientToHsKey, 0, keys.c2hDigestSeed);
    var h2c := Half(keys.hsToClientKey, 0, keys.h2cDigestSeed);
    if isClient then HopState(c2h, h2c) else HopState(h2c, c2h)
  }

  /** Both ends accept and hold mirrored layers: what one sends with, the other receives with. */
  lemma RendezvousAgreement(d: Dh, l: Labels, bSecret: Key32, xPriv: Key32, yPriv: Key32)
    requires DhLaw(d)
    ensures var (hsKeys, y, auth) := HsFinalize(d, l, bSecret, d.pub(bSecret), d.pub(xPriv), yPriv);
            var r := ClientFinalize(d, l, xPriv, d.pub(xPriv), d.pub(bSecret), y, auth);
            && r == Ok(hsKeys)
            && HopFromE2E(r.value, true).forward == HopFromE2E(hsKeys, false).backward
            && HopFromE2E(r.value, true).backward == HopFromE2E(hsKeys, false).forward
  {
    assert d.shared(xPriv, d.pub(yPriv)) == d.shared(yPriv, d.pub(xPriv));
    assert d.shared(xPriv, d.pub(bSecret)) == d.shared(bSecret, d.pub(xPriv));
  }
}

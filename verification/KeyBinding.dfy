/** What an accepted handshake says of the other end (`phinet-core/src/ntor.rs:103-285`,
    `phinet-core/src/rendezvous.rs:392-520`): the same transcript and the same Diffie-Hellman secrets, short of
    two inputs of one of the primitives that have one output. The inputs are named. */
module KeyBinding {
  import opened Wrappers
  import opened Bytes
  import opened Circuit
  import opened Ntor
  import opened Keystream
  import I = Introduction

  // ── Two inputs, one output ──────────────────────────────────────────

  predicate OneExtract(d: Dh, salt: bytes, a: bytes, b: bytes) {
    a != b && d.extract(salt, a) == d.extract(salt, b)
  }

  predicate OneExpand32(d: Dh, info: bytes, a: Key32, b: Key32) {
    a != b && d.expand32(a, info) == d.expand32(b, info)
  }

  /** In the bytes from `lo` up to `hi`. */
  predicate OneExpand104(d: Dh, info: bytes, a: Key32, b: Key32, lo: nat, hi: nat)
    requires lo <= hi <= 104
  {
    a != b && d.expand104(a, info)[lo..hi] == d.expand104(b, info)[lo..hi]
  }

  predicate OneMac(d: Dh, k: Key32, a: bytes, k': Key32, b: bytes) {
    (k, a) != (k', b) && d.hmac(k, a) == d.hmac(k', b)
  }

  // ── Keys ────────────────────────────────────────────────────────────

  /** A hop's four parts are four parts of the key material, each byte used once, its counters zero. */
  lemma NtorParts(km: Key104)
    ensures var hop := HopFromNtor(NtorKeysFromBytes(km));
            && |hop.forward.digest| == |hop.backward.digest| == 20
            && hop.forward.digest + hop.backward.digest + hop.forward.key + hop.backward.key == km
            && hop.forward.nonce == 0 && hop.backward.nonce == 0
  {
  }

  // ── ntor ────────────────────────────────────────────────────────────

  /** What the client and the server feed to the extraction. */
  function ClientSecret(d: Dh, l: Labels, hs: ClientHandshake, y: Key32): bytes {
    d.shared(hs.xPriv, y) + d.shared(hs.xPriv, hs.serverB) + hs.serverId + hs.serverB + hs.xPub + y + l.protoId
  }

  function ServerSecret(d: Dh, l: Labels, serverId: Key32, bPub: Key32, bSecret: Key32, x: Key32, yPriv: Key32): bytes {
    d.shared(yPriv, x) + d.shared(bSecret, x) + serverId + bPub + x + d.pub(yPriv) + l.protoId
  }

  function AuthInput(l: Labels, serverId: Key32, b: Key32, y: Key32, x: Key32): bytes {
    serverId + b + y + x + l.protoId + l.mServer
  }

  /** Both ends mean the same handshake and have the same two secrets. */
  predicate SameExchange(d: Dh, hs: ClientHandshake, serverId: Key32, bPub: Key32, bSecret: Key32, x: Key32, yPriv: Key32) {
    && hs.serverId == serverId && hs.serverB == bPub && hs.xPub == x
    && d.shared(hs.xPriv, d.pub(yPriv)) == d.shared(yPriv, x)
    && d.shared(hs.xPriv, bPub) == d.shared(bSecret, x)
  }

  lemma SecretsTell(d: Dh, l: Labels, hs: ClientHandshake, serverId: Key32, bPub: Key32, bSecret: Key32, x: Key32, yPriv: Key32)
    requires ClientSecret(d, l, hs, d.pub(yPriv)) == ServerSecret(d, l, serverId, bPub, bSecret, x, yPriv)
    ensures SameExchange(d, hs, serverId, bPub, bSecret, x, yPriv)
  {
    var a, b := ClientSecret(d, l, hs, d.pub(yPriv)), ServerSecret(d, l, serverId, bPub, bSecret, x, yPriv);
    assert a[0..32] == d.shared(hs.xPriv, d.pub(yPriv)) && b[0..32] == d.shared(yPriv, x);
    assert a[32..64] == d.shared(hs.xPriv, hs.serverB) && b[32..64] == d.shared(bSecret, x);
    assert a[64..96] == hs.serverId && b[64..96] == serverId;
    assert a[96..128] == hs.serverB && b[96..128] == bPub;
    assert a[128..160] == hs.xPub && b[128..160] == x;
  }

  /** The client accepts a server's reply only if it comes from the same exchange, whatever became of the message
      on its way; otherwise two inputs of a primitive have one output. So a server that lacks either secret
      is refused. */
  lemma AcceptedIsSame(
    d: Dh, l: Labels, hs: ClientHandshake, serverId: Key32, bPub: Key32, bSecret: Key32, msg: ClientMsg, yPriv: Key32)
    requires var r := ServerHandshake(d, l, serverId, bPub, bSecret, msg, yPriv);
             r.Ok? && ClientHandshakeFinish(d, l, hs, r.value.1).Ok?
    ensures var x: Key32, y := msg[64..96], d.pub(yPriv);
            var ours, theirs := ClientSecret(d, l, hs, y), ServerSecret(d, l, serverId, bPub, bSecret, x, yPriv);
            var seed, seed' := d.extract(l.tKey, ours), d.extract(l.tKey, theirs);
            || SameExchange(d, hs, serverId, bPub, bSecret, x, yPriv)
            || OneExtract(d, l.tKey, ours, theirs)
            || OneExpand32(d, l.tVerify, seed, seed')
            || OneMac(d, d.expand32(seed, l.tVerify), AuthInput(l, hs.serverId, hs.serverB, y, hs.xPub),
                      d.expand32(seed', l.tVerify), AuthInput(l, serverId, bPub, y, x))
  {
    var x: Key32, y := msg[64..96], d.pub(yPriv);
    var reply := ServerHandshake(d, l, serverId, bPub, bSecret, msg, yPriv).value.1;
    assert reply[0..32] == y;
    var ours, theirs := ClientSecret(d, l, hs, y), ServerSecret(d, l, serverId, bPub, bSecret, x, yPriv);
    if ours == theirs {
      SecretsTell(d, l, hs, serverId, bPub, bSecret, x, yPriv);
    } else {
      var auth := d.hmac(d.expand32(d.extract(l.tKey, theirs), l.tVerify), AuthInput(l, serverId, bPub, y, x));
      assert reply[32..64] == auth;
    }
  }

  /** The same of keys that come out equal. */
  lemma EqualKeysAreSame(
    d: Dh, l: Labels, hs: ClientHandshake, serverId: Key32, bPub: Key32, bSecret: Key32, msg: ClientMsg, yPriv: Key32)
    requires var r := ServerHandshake(d, l, serverId, bPub, bSecret, msg, yPriv);
             r.Ok? && ClientHandshakeFinish(d, l, hs, r.value.1) == Ok(r.value.0)
    ensures var x: Key32, y := msg[64..96], d.pub(yPriv);
            var ours, theirs := ClientSecret(d, l, hs, y), ServerSecret(d, l, serverId, bPub, bSecret, x, yPriv);
            || SameExchange(d, hs, serverId, bPub, bSecret, x, yPriv)
            || OneExtract(d, l.tKey, ours, theirs)
            || OneExpand104(d, l.tExpand, d.extract(l.tKey, ours), d.extract(l.tKey, theirs), 0, 104)
  {
    var x: Key32, y := msg[64..96], d.pub(yPriv);
    var reply := ServerHandshake(d, l, serverId, bPub, bSecret, msg, yPriv).value.1;
    assert reply[0..32] == y;
    var ours, theirs := ClientSecret(d, l, hs, y), ServerSecret(d, l, serverId, bPub, bSecret, x, yPriv);
    if ours == theirs {
      SecretsTell(d, l, hs, serverId, bPub, bSecret, x, yPriv);
    } else {
      var km, km' := d.expand104(d.extract(l.tKey, ours), l.tExpand), d.expand104(d.extract(l.tKey, theirs), l.tExpand);
      NtorParts(km);
      NtorParts(km');
      assert km == km';
    }
  }

  // ── Rendezvous ──────────────────────────────────────────────────────

  function E2ESecret(l: Labels, xy: Key32, xb: Key32, x: Key32, y: Key32, b: Key32): bytes {
    xy + xb + x + y + b + l.hsProtoId
  }

  function E2EAuthInput(l: Labels, x: Key32, y: Key32, b: Key32): bytes {
    l.hsProtoId + l.hsAuth + x + y + b
  }

  /** The layers of the two ends are made of the same four parts, mirrored, each byte used once. */
  lemma E2EParts(d: Dh, l: Labels, bSecret: Key32, bPub: Key32, x: Key32, yPriv: Key32)
    ensures var keys := HsFinalize(d, l, bSecret, bPub, x, yPriv).0;
            var client, service := HopFromE2E(keys, true), HopFromE2E(keys, false);
            var secret := E2ESecret(l, d.shared(yPriv, x), d.shared(bSecret, x), x, d.pub(yPriv), bPub);
            && client.forward.key + client.backward.key + client.forward.digest + client.backward.digest
               == d.expand104(d.extract(l.hsSalt, secret), l.hsExpand)
            && |client.forward.digest| == |client.backward.digest| == 20
            && service == HopState(client.backward, client.forward)
            && client.forward.nonce == 0 && client.backward.nonce == 0
  {
    var secret := E2ESecret(l, d.shared(yPriv, x), d.shared(bSecret, x), x, d.pub(yPriv), bPub);
    var km := d.expand104(d.extract(l.hsSalt, secret), l.hsExpand);
    assert km == km[0..32] + km[32..64] + km[64..84] + km[84..104];
  }

  /** The client completes a rendezvous only with a service that has the same secrets and means the same keys. */
  lemma CompletedIsSame(
    d: Dh, l: Labels, xPriv: Key32, x: Key32, b: Key32, bSecret: Key32, bPub: Key32, x': Key32, yPriv: Key32)
    requires var (keys, y, auth) := HsFinalize(d, l, bSecret, bPub, x', yPriv); ClientFinalize(d, l, xPriv, x, b, y, auth).Ok?
    ensures var y := d.pub(yPriv);
            var ours := E2ESecret(l, d.shared(xPriv, y), d.shared(xPriv, b), x, y, b);
            var theirs := E2ESecret(l, d.shared(yPriv, x'), d.shared(bSecret, x'), x', y, bPub);
            var seed, seed' := d.extract(l.hsSalt, ours), d.extract(l.hsSalt, theirs);
            || (x == x' && b == bPub && d.shared(xPriv, y) == d.shared(yPriv, x') && d.shared(xPriv, b) == d.shared(bSecret, x'))
            || OneExtract(d, l.hsSalt, ours, theirs)
            || OneExpand104(d, l.hsExpand, seed, seed', 0, 32)
            || OneMac(d, d.expand104(seed, l.hsExpand)[0..32], E2EAuthInput(l, x, y, b),
                      d.expand104(seed', l.hsExpand)[0..32], E2EAuthInput(l, x', y, bPub))
  {
    var y := d.pub(yPriv);
    var xy, xb, xy', xb' := d.shared(xPriv, y), d.shared(xPriv, b), d.shared(yPriv, x'), d.shared(bSecret, x');
    var ours, theirs := E2ESecret(l, xy, xb, x, y, b), E2ESecret(l, xy', xb', x', y, bPub);
    if ours == theirs {
      assert ours[0..32] == xy && theirs[0..32] == xy' && ours[32..64] == xb && theirs[32..64] == xb';
      assert ours[64..96] == x && theirs[64..96] == x' && ours[128..160] == b && theirs[128..160] == bPub;
    }
  }

  // ── Introduction ────────────────────────────────────────────────────

  /** What the client seals goes out under a keystream, bit by bit, under the key derived from the shared secret. */
  lemma SealFlips(c: I.Crypto, hsB: Key32, authKey: Key32, p: I.Plaintext, clientSk: Key32, k: nat, i: nat)
    requires I.Laws(c) && k < I.PLAINTEXT_LEN && i < 8
    ensures var m := I.BuildForHs(c, hsB, authKey, p, clientSk);
            var stream := c.stream(c.keys(c.dh.shared(clientSk, hsB), c.dh.pub(clientSk), hsB).0, I.PLAINTEXT_LEN);
            && |m.encPayload| == |stream| == I.PLAINTEXT_LEN && m.authKey == authKey && m.clientX == c.dh.pub(clientSk)
            && (Bit(m.encPayload[k], i) <==> Bit(I.EncodePlaintext(p)[k], i) != Bit(stream[k], i))
  {
    hide I.EncodePlaintext;
    var stream := c.stream(c.keys(c.dh.shared(clientSk, hsB), c.dh.pub(clientSk), hsB).0, I.PLAINTEXT_LEN);
    XorByteMeaning(I.EncodePlaintext(p)[k], stream[k], i);
  }

  /** Of the messages with one tag the service opens one only, short of two inputs of the MAC with one output. */
  lemma OpensOne(c: I.Crypto, m: I.Introduce, m': I.Introduce, bSecret: Key32, hsB: Key32)
    requires I.Laws(c) && I.OpenAtHs(c, m, bSecret, hsB).Ok? && I.OpenAtHs(c, m', bSecret, hsB).Ok? && m.mac == m'.mac
    ensures var key := c.keys(c.dh.shared(bSecret, m.clientX), m.clientX, hsB).1;
            var key' := c.keys(c.dh.shared(bSecret, m'.clientX), m'.clientX, hsB).1;
            var input, input' := m.authKey + m.clientX + m.encPayload, m'.authKey + m'.clientX + m'.encPayload;
            m == m' || ((key, input) != (key', input') && c.mac(key, input) == c.mac(key', input'))
  {
    var input, input' := m.authKey + m.clientX + m.encPayload, m'.authKey + m'.clientX + m'.encPayload;
    if input == input' {
      assert input[..32] == m.authKey && input'[..32] == m'.authKey;
      assert input[32..64] == m.clientX && input'[32..64] == m'.clientX;
      assert input[64..] == m.encPayload && input'[64..] == m'.encPayload;
    }
  }
}

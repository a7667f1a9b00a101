/** Introducing a client to a hidden service (`phinet-core/src/rendezvous.rs:156-322`): the INTRODUCE
    payload, sealed by the client for the service's static key. HKDF, HMAC and ChaCha20 are parameters;
    so is the lossy reading of UTF-8, which keeps ASCII as it is. */
module Introduction {
  import opened Wrappers
  import opened Bytes
  import opened Circuit
  import opened Ntor

  const COOKIE_LEN: nat := 20
  const HOST_LEN: nat := 20
  const PLAINTEXT_LEN: nat := 74

  type Cookie = c: bytes | |c| == COOKIE_LEN witness Zeros(20)

  datatype Plaintext = Plaintext(rpNodeId: Key32, rpHost: bytes, rpPort: u16, cookie: Cookie)

  datatype Introduce = Introduce(authKey: Key32, clientX: Key32, encPayload: bytes, mac: Key32)

  datatype IntroError = TooShort | Truncated | AuthFailed

  /** `stream(key, n)` is the first `n` bytes of the keystream; `keys(shared, x, b)` the stream key and the
      MAC key. */
  datatype Crypto = Crypto(
    dh: Dh, keys: (Key32, Key32, Key32) -> (Key32, Key32), mac: (Key32, bytes) -> Key32,
    stream: (Key32, nat) -> bytes, lossy: bytes -> bytes)

  predicate IsAscii(b: bytes) {
    forall i :: 0 <= i < |b| ==> b[i] < 128
  }

  ghost predicate Laws(c: Crypto) {
    && DhLaw(c.dh)
    && (forall k, n: nat :: |c.stream(k, n)| == n)
    && (forall b :: IsAscii(b) ==> c.lossy(b) == b)
  }

  // ── The plaintext ───────────────────────────────────────────────────

  /** The host field: cut at twenty bytes, padded with zeros. */
  function HostField(host: bytes): (f: bytes)
    ensures |f| == HOST_LEN
  {
    if |host| >= HOST_LEN then host[..HOST_LEN] else host + Zeros(HOST_LEN - |host|)
  }

  function EncodePlaintext(p: Plaintext): (b: bytes)
    ensures |b| == PLAINTEXT_LEN
  {
    p.rpNodeId + p.cookie + HostField(p.rpHost) + Be16(p.rpPort)
  }

  /** Where the first zero is, or the length. */
  function UpToZero(b: bytes): (n: nat)
    ensures n <= |b| && (forall i :: 0 <= i < n ==> b[i] != 0) && (n < |b| ==> b[n] == 0)
  {
    if b == [] || b[0] == 0 then 0 else 1 + UpToZero(b[1..])
  }

  function DecodePlaintext(c: Crypto, b: bytes): Result<Plaintext, IntroError> {
    if |b| < PLAINTEXT_LEN then Err(TooShort)
    else
      var raw := b[52..72];
      Ok(Plaintext(b[..32], c.lossy(raw[..UpToZero(raw)]), FromBe16(b[72..74]), b[32..52]))
  }

  /** What is left of a host name after the way through its field. */
  function HostAfter(host: bytes): bytes {
    var cut := if |host| > HOST_LEN then host[..HOST_LEN] else host;
    cut[..UpToZero(cut)]
  }

  lemma FieldHost(host: bytes)
    ensures HostField(host)[..UpToZero(HostField(host))] == HostAfter(host)
  {
    var field, cut := HostField(host), if |host| > HOST_LEN then host[..HOST_LEN] else host;
    var n := UpToZero(cut);
    assert field[..|cut|] == cut;
    assert forall i :: 0 <= i < |cut| ==> field[i] == cut[i];
    assert n < |field| ==> field[n] == 0;
    assert UpToZero(field) == n;
  }

  /** A name survives exactly when it is short and has no zero byte. */
  lemma HostSurvives(host: bytes)
    ensures HostAfter(host) == host <==> |host| <= HOST_LEN && forall i :: 0 <= i < |host| ==> host[i] != 0
  {
  }

  lemma PlaintextRead(c: Crypto, p: Plaintext)
    ensures DecodePlaintext(c, EncodePlaintext(p)) == Ok(p.(rpHost := c.lossy(HostAfter(p.rpHost))))
  {
    var b := EncodePlaintext(p);
    assert b[..32] == p.rpNodeId && b[32..52] == p.cookie && b[52..72] == HostField(p.rpHost) && b[72..74] == Be16(p.rpPort);
    FieldHost(p.rpHost);
  }

  // ── Sealing and opening ─────────────────────────────────────────────

  /** `apply_chacha20`. */
  function Crypt(c: Crypto, key: Key32, b: bytes): (r: bytes)
    requires Laws(c)
    ensures |r| == |b|
  {
    Xor(b, c.stream(key, |b|))
  }

  /** `build_for_hs_with_ephemeral`. */
  function BuildForHs(c: Crypto, hsB: Key32, authKey: Key32, p: Plaintext, clientSk: Key32): Introduce
    requires Laws(c)
  {
    var x := c.dh.pub(clientSk);
    var (streamKey, macKey) := c.keys(c.dh.shared(clientSk, hsB), x, hsB);
    var ct := Crypt(c, streamKey, EncodePlaintext(p));
    Introduce(authKey, x, ct, c.mac(macKey, authKey + x + ct))
  }

  /** `open_at_hs`. */
  function OpenAtHs(c: Crypto, m: Introduce, bSecret: Key32, hsB: Key32): Result<Plaintext, IntroError>
    requires Laws(c)
  {
    var (streamKey, macKey) := c.keys(c.dh.shared(bSecret, m.clientX), m.clientX, hsB);
    if c.mac(macKey, m.authKey + m.clientX + m.encPayload) != m.mac then Err(AuthFailed)
    else DecodePlaintext(c, Crypt(c, streamKey, m.encPayload))
  }

  /** What the client sealed the service opens: the rendezvous point, the cookie and the port always, an
      ASCII host name exactly when it has at most twenty bytes and no zero among them. A longer one is cut
      without a word. */
  lemma IntroduceRoundTrip(c: Crypto, bSecret: Key32, authKey: Key32, p: Plaintext, clientSk: Key32)
    requires Laws(c)
    ensures var r := OpenAtHs(c, BuildForHs(c, c.dh.pub(bSecret), authKey, p, clientSk), bSecret, c.dh.pub(bSecret));
            && r == Ok(p.(rpHost := c.lossy(HostAfter(p.rpHost))))
            && (IsAscii(p.rpHost) ==>
              (r == Ok(p) <==> |p.rpHost| <= HOST_LEN && forall i :: 0 <= i < |p.rpHost| ==> p.rpHost[i] != 0))
  {
    hide EncodePlaintext, DecodePlaintext, HostAfter, Xor;
    var hsB, x := c.dh.pub(bSecret), c.dh.pub(clientSk);
    assert c.dh.shared(bSecret, x) == c.dh.shared(clientSk, hsB);
    var streamKey := c.keys(c.dh.shared(clientSk, hsB), x, hsB).0;
    var b := EncodePlaintext(p);
    XorInvolution(b, c.stream(streamKey, |b|));
    PlaintextRead(c, p);
    HostSurvives(p.rpHost);
    if IsAscii(p.rpHost) {
      AsciiAfter(p.rpHost);
    }
  }

  lemma AsciiAfter(host: bytes)
    requires IsAscii(host)
    ensures IsAscii(HostAfter(host))
  {
  }

  // ── On the wire ─────────────────────────────────────────────────────

  function Encode(m: Introduce): bytes {
    m.authKey + m.clientX + Be16(|m.encPayload| % 0x1_0000) + m.encPayload + m.mac
  }

  function Decode(b: bytes): Result<Introduce, IntroError> {
    if |b| < 98 then Err(TooShort)
    else
      var n := FromBe16(b[64..66]);
      if |b| < 66 + n + 32 then Err(IntroError.Truncated)
      else Ok(Introduce(b[..32], b[32..64], b[66..66 + n], b[66 + n..66 + n + 32]))
  }

  /** The payload reads back exactly when the sealed part fits its 16-bit length. */
  lemma WireRoundTrip(m: Introduce)
    ensures Decode(Encode(m)) == Ok(m) <==> |m.encPayload| < 0x1_0000
  {
    var b, n := Encode(m), |m.encPayload|;
    assert b[..32] == m.authKey && b[32..64] == m.clientX && b[64..66] == Be16(n % 0x1_0000);
    assert b[66..66 + n] == m.encPayload && b[66 + n..66 + n + 32] == m.mac;
  }
}

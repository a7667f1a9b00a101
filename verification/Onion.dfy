/** Onion cells (`phinet-core/src/onion.rs`): layers of encrypted JSON, padded with random bytes that a bracket
    scanner strips again. X25519 with HKDF and ChaCha20-Poly1305 are functions carried by `Primitives`; the
    reader of JSON is one that reads back what was printed. */
module Onion {
  import opened Wrappers
  import opened Bytes
  import opened Circuit
  import opened Text
  import opened Json

  datatype Hop = Hop(host: bytes, port: u16, staticPub: bytes)

  datatype Envelope = Envelope(nextHost: Option<bytes>, nextPort: Option<u16>, data: bytes)

  datatype LayerWrapper = LayerWrapper(ephemPub: bytes, nonce: u64, aad: bytes, ct: bytes)

  datatype OnionError = NoHops | BadStaticPub | BadCell | BadWrapper | BadEphemPub | AadMismatch | BadCiphertext | AuthFailed
    | BadEnvelope | BadData

  datatype Primitives = Primitives(
    pub: Key32 -> Key32,                                  // public key of a secret
    hopKey: (Key32, Key32) -> Key32,                      // secret, peer's public key
    seal: (Key32, u64, bytes, bytes) -> bytes,            // key, counter, associated data, plaintext
    open: (Key32, u64, bytes, bytes) -> Option<bytes>,
    readWrapper: bytes -> Option<LayerWrapper>,
    readEnvelope: bytes -> Option<Envelope>)

  ghost predicate Laws(c: Primitives) {
    && (forall a, b :: c.hopKey(a, c.pub(b)) == c.hopKey(b, c.pub(a)))
    && (forall k, n: u64, aad, m :: c.open(k, n, aad, c.seal(k, n, aad, m)) == Some(m))
    && (forall w :: c.readWrapper(PrintWrapper(w)) == Some(w))
    && (forall e :: c.readEnvelope(PrintEnvelope(e)) == Some(e))
  }

  // ── What is printed ─────────────────────────────────────────────────

  const COLON: bytes := [58]
  const COMMA: bytes := [44]

  function PrintEnvelope(e: Envelope): bytes {
    [123] + (Quoted(Ascii("next_host")) + (COLON + (OptionalString(e.nextHost) + (COMMA
    + (Quoted(Ascii("next_port")) + (COLON + (OptionalNumber(e.nextPort) + (COMMA
    + (Quoted(Ascii("data")) + (COLON + (Quoted(e.data) + [125])))))))))))
  }

  function PrintWrapper(w: LayerWrapper): bytes {
    [123] + (Quoted(Ascii("ephem_pub")) + (COLON + (Quoted(w.ephemPub) + (COMMA
    + (Quoted(Ascii("nonce")) + (COLON + (Decimal(w.nonce) + (COMMA
    + (Quoted(Ascii("aad")) + (COLON + (Quoted(w.aad) + (COMMA
    + (Quoted(Ascii("ct")) + (COLON + (Quoted(w.ct) + [125])))))))))))))))
  }

  lemma Behind(a: bytes, x: bytes, y: bytes)
    requires a + x == a + y
    ensures x == y
  {
    SplitSame(a, x, a, y);
  }

  /** Different envelopes print differently, so there is a reader as the laws ask for. */
  lemma EnvelopeReadable(d: Envelope, e: Envelope)
    requires PrintEnvelope(d) == PrintEnvelope(e)
    ensures d == e
  {
    hide Quoted, OptionalString, OptionalNumber, Ascii, Decimal;
    var d4, e4 := Quoted(d.data) + [125], Quoted(e.data) + [125];
    var d3, e3 := Quoted(Ascii("data")) + (COLON + d4), Quoted(Ascii("data")) + (COLON + e4);
    var d2, e2 := OptionalNumber(d.nextPort) + (COMMA + d3), OptionalNumber(e.nextPort) + (COMMA + e3);
    var d1, e1 := Quoted(Ascii("next_port")) + (COLON + d2), Quoted(Ascii("next_port")) + (COLON + e2);
    var d0, e0 := OptionalString(d.nextHost) + (COMMA + d1), OptionalString(e.nextHost) + (COMMA + e1);
    Behind([123], Quoted(Ascii("next_host")) + (COLON + d0), Quoted(Ascii("next_host")) + (COLON + e0));
    Behind(Quoted(Ascii("next_host")), COLON + d0, COLON + e0);
    Behind(COLON, d0, e0);
    OptionalStringSplits(d.nextHost, COMMA + d1, e.nextHost, COMMA + e1);
    Behind(COMMA, d1, e1);
    Behind(Quoted(Ascii("next_port")), COLON + d2, COLON + e2);
    Behind(COLON, d2, e2);
    OptionalNumberSplits(d.nextPort, COMMA + d3, e.nextPort, COMMA + e3);
    Behind(COMMA, d3, e3);
    Behind(Quoted(Ascii("data")), COLON + d4, COLON + e4);
    Behind(COLON, d4, e4);
    QuotedSplits(d.data, [125], e.data, [125]);
  }

  lemma WrapperReadable(v: LayerWrapper, w: LayerWrapper)
    requires PrintWrapper(v) == PrintWrapper(w)
    ensures v == w
  {
    hide Quoted, Ascii, Decimal;
    var v6, w6 := Quoted(v.ct) + [125], Quoted(w.ct) + [125];
    var v5, w5 := Quoted(Ascii("ct")) + (COLON + v6), Quoted(Ascii("ct")) + (COLON + w6);
    var v4, w4 := Quoted(v.aad) + (COMMA + v5), Quoted(w.aad) + (COMMA + w5);
    var v3, w3 := Quoted(Ascii("aad")) + (COLON + v4), Quoted(Ascii("aad")) + (COLON + w4);
    var v2, w2 := Decimal(v.nonce) + (COMMA + v3), Decimal(w.nonce) + (COMMA + w3);
    var v1, w1 := Quoted(Ascii("nonce")) + (COLON + v2), Quoted(Ascii("nonce")) + (COLON + w2);
    var v0, w0 := Quoted(v.ephemPub) + (COMMA + v1), Quoted(w.ephemPub) + (COMMA + w1);
    Behind([123], Quoted(Ascii("ephem_pub")) + (COLON + v0), Quoted(Ascii("ephem_pub")) + (COLON + w0));
    Behind(Quoted(Ascii("ephem_pub")), COLON + v0, COLON + w0);
    Behind(COLON, v0, w0);
    QuotedSplits(v.ephemPub, COMMA + v1, w.ephemPub, COMMA + w1);
    Behind(COMMA, v1, w1);
    Behind(Quoted(Ascii("nonce")), COLON + v2, COLON + w2);
    Behind(COLON, v2, w2);
    DecimalSplits(v.nonce, COMMA + v3, w.nonce, COMMA + w3);
    Behind(COMMA, v3, w3);
    Behind(Quoted(Ascii("aad")), COLON + v4, COLON + w4);
    Behind(COLON, v4, w4);
    QuotedSplits(v.aad, COMMA + v5, w.aad, COMMA + w5);
    Behind(COMMA, v5, w5);
    Behind(Quoted(Ascii("ct")), COLON + v6, COLON + w6);
    Behind(COLON, v6, w6);
    QuotedSplits(v.ct, [125], w.ct, [125]);
  }

  // ── The scanner ─────────────────────────────────────────────────────

  datatype Scan = Scanning(depth: int, inStr: bool, escape: bool) | Stopped

  /** One byte of the loop of `trim_json_padding`. */
  function Advance(s: Scan, b: byte): Scan
    requires s.Scanning?
  {
    if s.escape then s.(escape := false)
    else if b == BACKSLASH && s.inStr then s.(escape := true)
    else if b == QUOTE then s.(inStr := !s.inStr)
    else if (b == 123 || b == 91) && !s.inStr then s.(depth := s.depth + 1)
    else if (b == 125 || b == 93) && !s.inStr then
      if s.depth - 1 == 0 then Stopped else s.(depth := s.depth - 1)
    else s
  }

  /** How many bytes the loop consumes up to where it stops, and the state after them. */
  function ScanFrom(s: Scan, buf: bytes): (r: (Scan, nat))
    ensures r.1 <= |buf| && (r.0.Scanning? && s.Scanning? ==> r.1 == |buf|)
    decreases |buf|
  {
    if s.Stopped? || buf == [] then (s, 0)
    else
      var (s', n) := ScanFrom(Advance(s, buf[0]), buf[1..]);
      (s', n + 1)
  }

  const START: Scan := Scanning(0, false, false)

  function Trim(buf: bytes): bytes {
    buf[..if ScanFrom(START, buf).0.Stopped? then ScanFrom(START, buf).1 else |buf|]
  }

  /** `trim_json_padding`. */
  method TrimJsonPadding(buf: bytes) returns (trimmed: bytes)
    ensures trimmed == Trim(buf)
  {
    var depth, inStr, escape := 0, false, false;
    assert buf[0..] == buf;
    for i := 0 to |buf|
      invariant var (s, n) := ScanFrom(Scanning(depth, inStr, escape), buf[i..]);
                ScanFrom(START, buf) == (s, i + n)
    {
      var b := buf[i];
      assert buf[i..][0] == b && buf[i..][1..] == buf[i + 1..];
      if escape {
        escape := false;
        continue;
      }
      if b == BACKSLASH && inStr {
        escape := true;
      } else if b == QUOTE {
        inStr := !inStr;
      } else if (b == 123 || b == 91) && !inStr {
        depth := depth + 1;
      } else if (b == 125 || b == 93) && !inStr {
        depth := depth - 1;
        if depth == 0 {
          return buf[..i + 1];
        }
      }
    }
    return buf;
  }

  lemma {:induction false} ScanConcat(s: Scan, a: bytes, b: bytes)
    requires s.Scanning?
    ensures var (s1, n) := ScanFrom(s, a);
            ScanFrom(s, a + b) == if s1.Stopped? then (s1, n) else (ScanFrom(s1, b).0, |a| + ScanFrom(s1, b).1)
    decreases |a|
  {
    if a == [] {
      assert a + b == b;
    } else {
      assert (a + b)[0] == a[0] && (a + b)[1..] == a[1..] + b;
      if Advance(s, a[0]).Scanning? {
        ScanConcat(Advance(s, a[0]), a[1..], b);
      }
    }
  }

  /** `a` passes without a trace. */
  predicate Passes(depth: int, a: bytes) {
    ScanFrom(Scanning(depth, false, false), a).0 == Scanning(depth, false, false)
  }

  lemma PassesThen(depth: int, a: bytes, b: bytes)
    requires Passes(depth, a)
    ensures var (s, n) := ScanFrom(Scanning(depth, false, false), b);
            ScanFrom(Scanning(depth, false, false), a + b) == (s, |a| + n)
  {
    ScanConcat(Scanning(depth, false, false), a, b);
  }

  predicate Plain(b: byte) {
    b != QUOTE && b != 123 && b != 91 && b != 125 && b != 93
  }

  lemma {:induction false} PlainPasses(depth: int, a: bytes)
    requires forall i :: 0 <= i < |a| ==> Plain(a[i])
    ensures Passes(depth, a)
    decreases |a|
  {
    if a != [] {
      PlainPasses(depth, a[1..]);
    }
  }

  /** An escaped byte leaves the scanner inside the string, whatever byte it is. */
  lemma EscapeStays(depth: int, b: byte, rest: bytes)
    ensures var s := Scanning(depth, true, false);
            var (s', n) := ScanFrom(s, rest);
            ScanFrom(s, EscapeByte(b) + rest) == (s', |EscapeByte(b)| + n)
  {
    var s, e := Scanning(depth, true, false), EscapeByte(b);
    ScanConcat(s, e, rest);
    if |e| == 1 {
      assert e[1..] == [];
    } else if |e| == 2 {
      assert e[1..][1..] == [] && e[1..][0] == e[1];
    } else {
      var tail := e[2..];
      assert e[1..][1..] == tail && e[1..][0] == 117;
      assert tail[0] == 48 && tail[1..][0] == 48;
      HexInString(depth, tail);
      assert Advance(Advance(s, e[0]), e[1]) == s;
      assert ScanFrom(s, e) == (ScanFrom(s, tail).0, 2 + ScanFrom(s, tail).1);
    }
  }

  lemma {:induction false} HexInString(depth: int, a: bytes)
    requires forall i :: 0 <= i < |a| ==> a[i] != QUOTE && a[i] != BACKSLASH
    ensures ScanFrom(Scanning(depth, true, false), a).0 == Scanning(depth, true, false)
    decreases |a|
  {
    if a != [] {
      HexInString(depth, a[1..]);
    }
  }

  lemma {:induction false} EscapedStays(depth: int, s: bytes)
    ensures ScanFrom(Scanning(depth, true, false), Escaped(s)).0 == Scanning(depth, true, false)
    decreases |s|
  {
    if s != [] {
      EscapedStays(depth, s[1..]);
      EscapeStays(depth, s[0], Escaped(s[1..]));
    }
  }

  /** A printed string passes, whatever quotes, backslashes and brackets are in it. */
  lemma QuotedPasses(depth: int, s: bytes)
    ensures Passes(depth, Quoted(s))
  {
    var inside := Scanning(depth, true, false);
    EscapedStays(depth, s);
    ScanConcat(inside, Escaped(s), [QUOTE]);
    assert [QUOTE][1..] == [];
    assert Quoted(s)[1..] == Escaped(s) + [QUOTE];
  }

  lemma OptionalStringPasses(depth: int, s: Option<bytes>)
    ensures Passes(depth, OptionalString(s))
  {
    if s.None? {
      PlainPasses(depth, Null());
    } else {
      QuotedPasses(depth, s.value);
    }
  }

  lemma OptionalNumberPasses(depth: int, n: Option<u16>)
    ensures Passes(depth, OptionalNumber(n))
  {
    PlainPasses(depth, OptionalNumber(n));
  }

  /** The scanner stops exactly at the end of a printed envelope, whatever bytes follow it. */
  lemma EnvelopeEnds(e: Envelope, padding: bytes)
    ensures ScanFrom(START, PrintEnvelope(e) + padding) == (Stopped, |PrintEnvelope(e)|)
  {
    hide Quoted, OptionalString, OptionalNumber, Ascii, ScanFrom, Passes;
    var t4 := Quoted(e.data) + [125];
    var t3 := Quoted(Ascii("data")) + (COLON + t4);
    var t2 := OptionalNumber(e.nextPort) + (COMMA + t3);
    var t1 := Quoted(Ascii("next_port")) + (COLON + t2);
    var t0 := OptionalString(e.nextHost) + (COMMA + t1);
    var body := Quoted(Ascii("next_host")) + (COLON + t0);
    PlainPasses(1, COLON);
    PlainPasses(1, COMMA);
    QuotedPasses(1, e.data);
    PassesThen(1, Quoted(e.data), [125]);
    PassesThen(1, COLON, t4);
    QuotedPasses(1, Ascii("data"));
    PassesThen(1, Quoted(Ascii("data")), COLON + t4);
    PassesThen(1, COMMA, t3);
    OptionalNumberPasses(1, e.nextPort);
    PassesThen(1, OptionalNumber(e.nextPort), COMMA + t3);
    PassesThen(1, COLON, t2);
    QuotedPasses(1, Ascii("next_port"));
    PassesThen(1, Quoted(Ascii("next_port")), COLON + t2);
    PassesThen(1, COMMA, t1);
    OptionalStringPasses(1, e.nextHost);
    PassesThen(1, OptionalString(e.nextHost), COMMA + t1);
    PassesThen(1, COLON, t0);
    QuotedPasses(1, Ascii("next_host"));
    PassesThen(1, Quoted(Ascii("next_host")), COLON + t0);
    ScanClose();
    ScanOpen(body);
    ScanConcat(START, [123] + body, padding);
  }

  lemma ScanClose()
    ensures ScanFrom(Scanning(1, false, false), [125]) == (Stopped, 1)
  {
    assert [125][1..] == [];
  }

  lemma ScanOpen(body: bytes)
    requires ScanFrom(Scanning(1, false, false), body) == (Stopped, |body|)
    ensures ScanFrom(START, [123] + body) == (Stopped, 1 + |body|)
  {
    ScanStep(START, 123, body);
    hide ScanFrom;
    assert Advance(START, 123) == Scanning(1, false, false);
  }

  lemma ScanStep(s: Scan, b: byte, rest: bytes)
    requires s.Scanning?
    ensures ScanFrom(s, [b] + rest) == (ScanFrom(Advance(s, b), rest).0, 1 + ScanFrom(Advance(s, b), rest).1)
  {
    hide Advance;
    assert ([b] + rest)[1..] == rest;
  }

  /** Stripping the padding gives back the envelope. */
  lemma TrimExact(e: Envelope, padding: bytes)
    ensures Trim(PrintEnvelope(e) + padding) == PrintEnvelope(e)
  {
    EnvelopeEnds(e, padding);
  }

  // ── Building ────────────────────────────────────────────────────────

  /** What one layer draws: an ephemeral secret, a counter, and as much padding as needed. */
  datatype Draw = Draw(ephem: Key32, nonce: u64, noise: nat -> byte)

  function PaddedLen(n: nat): nat {
    if n <= CELL_SIZE then CELL_SIZE else (n / CELL_SIZE + 1) * CELL_SIZE
  }

  /** What is sealed is whole cells, one if the envelope fits in it, otherwise as many as it fills and one more. */
  lemma WholeCells(n: nat)
    ensures PaddedLen(n) % CELL_SIZE == 0 && PaddedLen(n) >= n && PaddedLen(n) > 0
    ensures if n <= CELL_SIZE then PaddedLen(n) == CELL_SIZE else PaddedLen(n) - CELL_SIZE <= n < PaddedLen(n)
  {
  }

  function Padding(d: Draw, n: nat): (p: bytes)
    ensures |p| == n
  {
    seq<byte>(n, i requires 0 <= i < n => d.noise(i))
  }

  /** `format!("{}:{}", host, port)`. */
  function Address(host: bytes, port: u16): bytes {
    host + (COLON + Decimal(port))
  }

  function EnvelopeFor(hops: seq<Hop>, i: nat, current: bytes): Envelope
    requires i < |hops|
  {
    if i + 1 < |hops| then Envelope(Some(hops[i + 1].host), Some(hops[i + 1].port), HexEncode(current))
    else Envelope(None, None, HexEncode(current))
  }

  /** The turn of the loop for hop `i`. */
  function WrapLayer(c: Primitives, hops: seq<Hop>, i: nat, current: bytes, d: Draw): Result<bytes, OnionError>
    requires i < |hops|
  {
    var hop := hops[i];
    var hopPub := HexDecodeExactly(hop.staticPub, 32);
    if hopPub.None? then Err(BadStaticPub)
    else
      var key := c.hopKey(d.ephem, hopPub.value);
      var inner := PrintEnvelope(EnvelopeFor(hops, i, current));
      WholeCells(|inner|);
      var padded := inner + Padding(d, PaddedLen(|inner|) - |inner|);
      var aad := Address(hop.host, hop.port);
      Ok(PrintWrapper(LayerWrapper(HexEncode(c.pub(d.ephem)), d.nonce, aad, HexEncode(c.seal(key, d.nonce, aad, padded)))))
  }

  /** The layers of hops `|hops| - 1`, ..., `i` around the payload. */
  function Layered(c: Primitives, hops: seq<Hop>, i: nat, payload: bytes, draws: seq<Draw>): Result<bytes, OnionError>
    requires i <= |hops| == |draws|
    decreases |hops| - i
  {
    if i == |hops| then Ok(payload)
    else
      match Layered(c, hops, i + 1, payload, draws)
      case Err(e) => Err(e)
      case Ok(current) => WrapLayer(c, hops, i, current, draws[i])
  }

  function BuildAnswer(c: Primitives, hops: seq<Hop>, payload: bytes, draws: seq<Draw>): Result<bytes, OnionError>
    requires |draws| == |hops|
  {
    if hops == [] then Err(NoHops)
    else
      match Layered(c, hops, 0, payload, draws)
      case Err(e) => Err(e)
      case Ok(current) => Ok(HexEncode(current))
  }

  /** `build`. */
  method Build(c: Primitives, hops: seq<Hop>, payload: bytes, draws: seq<Draw>) returns (r: Result<bytes, OnionError>)
    requires |draws| == |hops|
    ensures r == BuildAnswer(c, hops, payload, draws)
  {
    hide WrapLayer;
    if hops == [] {
      return Err(NoHops);
    }
    var current := payload;
    for i := |hops| downto 0
      invariant Layered(c, hops, i, payload, draws) == Ok(current)
    {
      var layer := WrapLayer(c, hops, i, current, draws[i]);
      if layer.Err? {
        LayerFails(c, hops, i, payload, draws, layer.error);
        return Err(layer.error);
      }
      current := layer.value;
    }
    return Ok(HexEncode(current));
  }

  lemma {:induction false} LayerFails(c: Primitives, hops: seq<Hop>, i: nat, payload: bytes, draws: seq<Draw>, e: OnionError)
    requires i < |hops| == |draws| && Layered(c, hops, i + 1, payload, draws).Ok?
    requires WrapLayer(c, hops, i, Layered(c, hops, i + 1, payload, draws).value, draws[i]) == Err(e)
    ensures Layered(c, hops, 0, payload, draws) == Err(e)
  {
    hide WrapLayer;
    FailsBelow(c, hops, i, 0, payload, draws, e);
  }

  lemma {:induction false} FailsBelow(
    c: Primitives, hops: seq<Hop>, i: nat, k: nat, payload: bytes, draws: seq<Draw>, e: OnionError)
    requires k <= i < |hops| == |draws| && Layered(c, hops, i, payload, draws) == Err(e)
    ensures Layered(c, hops, k, payload, draws) == Err(e)
    decreases i - k
  {
    hide WrapLayer;
    if k < i {
      FailsBelow(c, hops, i, k + 1, payload, draws, e);
    }
  }

  // ── Peeling ─────────────────────────────────────────────────────────

  /** `peel`. */
  function Peel(c: Primitives, cellHex: bytes, staticPriv: Key32, host: bytes, port: u16)
    : Result<(Option<bytes>, Option<u16>, bytes), OnionError>
  {
    var cell := HexDecode(cellHex);
    if cell.None? then Err(BadCell)
    else
      var wrapper := c.readWrapper(cell.value);
      if wrapper.None? then Err(BadWrapper)
      else
        var w := wrapper.value;
        var ephemPub := HexDecodeExactly(w.ephemPub, 32);
        if ephemPub.None? then Err(BadEphemPub)
        else if w.aad != Address(host, port) then Err(AadMismatch)
        else
          var ct := HexDecode(w.ct);
          if ct.None? then Err(BadCiphertext)
          else
            var padded := c.open(c.hopKey(staticPriv, ephemPub.value), w.nonce, w.aad, ct.value);
            if padded.None? then Err(AuthFailed)
            else
              var env := c.readEnvelope(Trim(padded.value));
              if env.None? then Err(BadEnvelope)
              else
                var data := HexDecode(env.value.data);
                if data.None? then Err(BadData) else Ok((env.value.nextHost, env.value.nextPort, data.value))
  }

  lemma HexReads(b: bytes)
    ensures HexDecode(HexEncode(b)) == Some(b)
    ensures |b| == 32 ==> HexDecodeExactly(HexEncode(b), 32) == Some(b)
  {
    HexRoundTrip(b);
  }

  /** Each address is printed differently. */
  lemma AddressInjective(host: bytes, port: u16, host': bytes, port': u16)
    requires Address(host, port) == Address(host', port')
    ensures host == host' && port == port'
  {
    var a, b := Address(host, port), Address(host', port');
    var m, n := |a| - |Decimal(port)|, |b| - |Decimal(port')|;
    assert a[m - 1] == 58 && b[n - 1] == 58;
    assert forall i :: m <= i < |a| ==> a[i] == Decimal(port)[i - m] != 58;
    assert forall i :: n <= i < |b| ==> b[i] == Decimal(port')[i - n] != 58;
    assert m == n;
    assert a == host + (COLON + Decimal(port)) && b == host' + (COLON + Decimal(port'));
    SplitSame(host, COLON + Decimal(port), host', COLON + Decimal(port'));
    Behind(COLON, Decimal(port), Decimal(port'));
    DecimalReads(port);
    DecimalReads(port');
  }

  /** One layer on and off again: the hop it was made for reads where to send what; a hop at any other
      address refuses. */
  lemma LayerRoundTrip(
    c: Primitives, hops: seq<Hop>, i: nat, current: bytes, d: Draw, priv: Key32, other: Key32, host: bytes, port: u16)
    requires Laws(c) && i < |hops| && HexDecodeExactly(hops[i].staticPub, 32) == Some(c.pub(priv))
    ensures var layer := WrapLayer(c, hops, i, current, d);
            && layer.Ok?
            && Peel(c, HexEncode(layer.value), priv, hops[i].host, hops[i].port) ==
              Ok(if i + 1 < |hops| then (Some(hops[i + 1].host), Some(hops[i + 1].port), current) else (None, None, current))
            && ((host, port) != (hops[i].host, hops[i].port) ==>
              Peel(c, HexEncode(layer.value), other, host, port) == Err(AadMismatch))
  {
    hide PrintEnvelope, PrintWrapper, Trim, HexEncode, HexDecode, HexDecodeExactly, Address;
    var hop := hops[i];
    var key := c.hopKey(d.ephem, c.pub(priv));
    var env := EnvelopeFor(hops, i, current);
    var inner := PrintEnvelope(env);
    WholeCells(|inner|);
    var padding := Padding(d, PaddedLen(|inner|) - |inner|);
    var aad := Address(hop.host, hop.port);
    var ct := c.seal(key, d.nonce, aad, inner + padding);
    var w := LayerWrapper(HexEncode(c.pub(d.ephem)), d.nonce, aad, HexEncode(ct));
    HexReads(PrintWrapper(w));
    HexReads(c.pub(d.ephem));
    HexReads(ct);
    HexReads(current);
    assert c.readWrapper(PrintWrapper(w)) == Some(w);
    assert c.hopKey(priv, c.pub(d.ephem)) == key;
    assert c.open(key, d.nonce, aad, ct) == Some(inner + padding);
    TrimExact(env, padding);
    assert c.readEnvelope(inner) == Some(env);
    if Address(host, port) == aad {
      AddressInjective(host, port, hop.host, hop.port);
    }
  }

  /** Hop after hop peels, checks that the next hop is the one named, and passes on what was inside. */
  function PeelAll(c: Primitives, cellHex: bytes, hops: seq<Hop>, privs: seq<Key32>, i: nat): Option<bytes>
    requires i < |hops| == |privs|
    decreases |hops| - i
  {
    match Peel(c, cellHex, privs[i], hops[i].host, hops[i].port)
    case Err(_) => None
    case Ok((nextHost, nextPort, data)) =>
      if i + 1 == |hops| then
        if nextHost.None? && nextPort.None? then Some(data) else None
      else if nextHost == Some(hops[i + 1].host) && nextPort == Some(hops[i + 1].port) then
        PeelAll(c, HexEncode(data), hops, privs, i + 1)
      else None
  }

  ghost predicate ValidKeys(c: Primitives, hops: seq<Hop>, privs: seq<Key32>) {
    && |privs| == |hops|
    && forall i :: 0 <= i < |hops| ==> HexDecodeExactly(hops[i].staticPub, 32) == Some(c.pub(privs[i]))
  }

  lemma {:induction false} PeelsFrom(
    c: Primitives, hops: seq<Hop>, privs: seq<Key32>, payload: bytes, draws: seq<Draw>, i: nat)
    requires Laws(c) && ValidKeys(c, hops, privs) && |draws| == |hops| && i < |hops|
    ensures Layered(c, hops, i, payload, draws).Ok?
    ensures PeelAll(c, HexEncode(Layered(c, hops, i, payload, draws).value), hops, privs, i) == Some(payload)
    decreases |hops| - i
  {
    hide WrapLayer, Peel, HexEncode, HexDecodeExactly, Laws;
    if i + 1 < |hops| {
      PeelsFrom(c, hops, privs, payload, draws, i + 1);
    }
    var current := Layered(c, hops, i + 1, payload, draws).value;
    LayerRoundTrip(c, hops, i, current, draws[i], privs[i], privs[i], hops[i].host, hops[i].port);
  }

  /** Onion round trip. For every list of hops with valid keys, every payload and all random draws, the cell
      is built, and peeling it hop by hop names each next hop in turn and ends with the payload. */
  lemma OnionRoundTrip(c: Primitives, hops: seq<Hop>, privs: seq<Key32>, payload: bytes, draws: seq<Draw>)
    requires Laws(c) && ValidKeys(c, hops, privs) && |draws| == |hops| && hops != []
    ensures BuildAnswer(c, hops, payload, draws).Ok?
    ensures PeelAll(c, BuildAnswer(c, hops, payload, draws).value, hops, privs, 0) == Some(payload)
  {
    PeelsFrom(c, hops, privs, payload, draws, 0);
  }

  /** Building fails for no other reason than an empty list or a key that cannot be read. */
  lemma {:induction false} BuildFails(c: Primitives, hops: seq<Hop>, payload: bytes, draws: seq<Draw>)
    requires |draws| == |hops|
    ensures BuildAnswer(c, hops, payload, draws).Err? <==>
      hops == [] || exists i :: 0 <= i < |hops| && HexDecodeExactly(hops[i].staticPub, 32).None?
  {
    if hops != [] {
      LayersFail(c, hops, 0, payload, draws);
    }
  }

  lemma {:induction false} LayersFail(c: Primitives, hops: seq<Hop>, i: nat, payload: bytes, draws: seq<Draw>)
    requires i <= |hops| == |draws|
    ensures Layered(c, hops, i, payload, draws).Err? <==>
      exists k :: i <= k < |hops| && HexDecodeExactly(hops[k].staticPub, 32).None?
    decreases |hops| - i
  {
    hide HexDecodeExactly, PrintEnvelope, PrintWrapper, HexEncode;
    if i < |hops| {
      LayersFail(c, hops, i + 1, payload, draws);
    }
  }

  // ── The laws can be met ─────────────────────────────────────────────

  ghost function ReadBackWrapper(b: bytes): Option<LayerWrapper> {
    if exists w :: PrintWrapper(w) == b then
      var w :| PrintWrapper(w) == b;
      Some(w)
    else None
  }

  ghost function ReadBackEnvelope(b: bytes): Option<Envelope> {
    if exists e :: PrintEnvelope(e) == b then
      var e :| PrintEnvelope(e) == b;
      Some(e)
    else None
  }

  /** Since printing is unambiguous, readers as the laws ask for exist. */
  lemma LawsAreSatisfiable(k: Key32)
    ensures Laws(Primitives(
      _ => k, (_, _) => k, (_, _, _, m) => m, (_, _, _, m) => Some(m), ReadBackWrapper, ReadBackEnvelope))
  {
    hide PrintWrapper, PrintEnvelope;
    forall w
      ensures ReadBackWrapper(PrintWrapper(w)) == Some(w)
    {
      WrapperReadable(ReadBackWrapper(PrintWrapper(w)).value, w);
    }
    forall e
      ensures ReadBackEnvelope(PrintEnvelope(e)) == Some(e)
    {
      EnvelopeReadable(ReadBackEnvelope(PrintEnvelope(e)).value, e);
    }
  }
}

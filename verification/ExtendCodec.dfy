/** The EXTEND2 and EXTENDED2 payload codecs (`phinet-core/src/circuit.rs`). */
module ExtendCodec {
  import opened Wrappers
  import opened Bytes
  import opened Circuit

  const LSPEC_IPV4: byte := 0
  const LSPEC_NODE_ID: byte := 2
  const LSPEC_STATIC_PUB: byte := 3
  const HTYPE_NTOR: u16 := 2

  datatype LinkSpec = LinkSpec(host: bytes, port: u16, nodeId: Key32, staticPub: Key32)

  type Octets = o: bytes | |o| == 4 witness [127, 0, 0, 1]

  /** The standard library's reading and printing of dotted addresses. */
  datatype Dotted = Dotted(parse: bytes -> Option<Octets>, format: Octets -> bytes)

  /** One link specifier: type, length, body. */
  function Spec(ty: byte, body: bytes): (r: bytes)
    requires |body| < 256
    ensures |r| == 2 + |body|
  {
    [ty, |body|] + body
  }

  function Tail(msg: bytes): bytes {
    Be16(HTYPE_NTOR) + Be16(|msg| % 0x1_0000) + msg
  }

  function AddrBody(net: Dotted, next: LinkSpec): (b: bytes)
    ensures |b| == 6
  {
    net.parse(next.host).GetOr([127, 0, 0, 1]) + Be16(next.port)
  }

  function BuildExtend2(net: Dotted, next: LinkSpec, msg: bytes): (r: bytes)
    ensures |r| == 81 + |msg|
  {
    [3] + Spec(LSPEC_IPV4, AddrBody(net, next)) + Spec(LSPEC_NODE_ID, next.nodeId)
    + Spec(LSPEC_STATIC_PUB, next.staticPub) + Tail(msg)
  }

  /** What the specifier loop has gathered. */
  datatype Specs = Specs(host: bytes, port: u16, nodeId: Key32, staticPub: Key32, haveAddr: bool, haveId: bool)

  const NO_SPECS: Specs := Specs([], 0, Zeros(32), Zeros(32), false, false)

  function TakeSpec(net: Dotted, ty: byte, body: bytes, acc: Specs): Specs {
    if ty == LSPEC_IPV4 && |body| == 6 then
      acc.(host := net.format(body[..4]), port := FromBe16(body[4..]), haveAddr := true)
    else if ty == LSPEC_NODE_ID && |body| == 32 then
      acc.(nodeId := body, haveId := true)
    else if ty == LSPEC_STATIC_PUB && |body| == 32 then
      acc.(staticPub := body)
    else
      acc
  }

  /** `n` specifiers from position `i`: the position after them and what they said. */
  function ParseSpecs(net: Dotted, buf: bytes, i: nat, n: nat, acc: Specs): (r: Result<(nat, Specs), string>)
    requires i <= |buf|
    ensures r.Ok? ==> r.value.0 <= |buf|
    decreases n
  {
    if n == 0 then Ok((i, acc))
    else if i + 2 > |buf| then Err("truncated spec header")
    else
      var ln: nat := buf[i + 1];
      if i + 2 + ln > |buf| then Err("truncated spec body")
      else ParseSpecs(net, buf, i + 2 + ln, n - 1, TakeSpec(net, buf[i], buf[i + 2..i + 2 + ln], acc))
  }

  function ParseTail(buf: bytes, i: nat): Result<bytes, string>
    requires i <= |buf|
  {
    if i + 4 > |buf| then Err("truncated htype/hlen")
    else if FromBe16(buf[i..i + 2]) != HTYPE_NTOR then Err("unknown htype")
    else
      var hlen := FromBe16(buf[i + 2..i + 4]);
      if i + 4 + hlen > |buf| then Err("truncated hdata") else Ok(buf[i + 4..i + 4 + hlen])
  }

  function Extend2Of(net: Dotted, buf: bytes): Result<(LinkSpec, bytes), string> {
    if buf == [] then Err("empty")
    else if buf[0] == 0 || buf[0] > 8 then Err("bad nspec")
    else
      var (i, specs) :- ParseSpecs(net, buf, 1, buf[0], NO_SPECS);
      if !specs.haveAddr || !specs.haveId then Err("missing IPv4 or node_id spec")
      else
        var hdata :- ParseTail(buf, i);
        Ok((LinkSpec(specs.host, specs.port, specs.nodeId, specs.staticPub), hdata))
  }

  /** The source's loop over a moving index. */
  method ParseExtend2(net: Dotted, buf: bytes) returns (r: Result<(LinkSpec, bytes), string>)
    ensures r == Extend2Of(net, buf)
  {
    hide TakeSpec;
    if buf == [] {
      return Err("empty");
    }
    var i: nat := 0;
    var nspec: nat := buf[i];
    i := i + 1;
    if nspec == 0 || nspec > 8 {
      return Err("bad nspec");
    }
    var acc := NO_SPECS;
    for done := 0 to nspec
      invariant i <= |buf|
      invariant ParseSpecs(net, buf, i, nspec - done, acc) == ParseSpecs(net, buf, 1, nspec, NO_SPECS)
    {
      if i + 2 > |buf| {
        return Err("truncated spec header");
      }
      var ty := buf[i];
      i := i + 1;
      var ln: nat := buf[i];
      i := i + 1;
      if i + ln > |buf| {
        return Err("truncated spec body");
      }
      acc := TakeSpec(net, ty, buf[i..i + ln], acc);
      i := i + ln;
    }
    if !acc.haveAddr || !acc.haveId {
      return Err("missing IPv4 or node_id spec");
    }
    var tail := ParseTail(buf, i);
    r := match tail
      case Ok(hdata) => Ok((LinkSpec(acc.host, acc.port, acc.nodeId, acc.staticPub), hdata))
      case Err(e) => Err(e);
  }

  /** Reading one specifier whose bytes are known. */
  lemma ReadSpec(net: Dotted, pre: bytes, post: bytes, n: nat, acc: Specs, ty: byte, body: bytes)
    requires n > 0 && |body| < 256
    ensures var buf := pre + Spec(ty, body) + post;
            var acc' := TakeSpec(net, ty, body, acc);
            ParseSpecs(net, buf, |pre|, n, acc) == ParseSpecs(net, buf, |pre| + 2 + |body|, n - 1, acc')
  {
    var buf := pre + Spec(ty, body) + post;
    assert buf[|pre|] == ty && buf[|pre| + 1] == |body|;
    assert buf[|pre| + 2..|pre| + 2 + |body|] == body;
  }

  /** The handshake after the specifiers comes back exactly when it fits its 16-bit length. */
  lemma ReadTail(pre: bytes, msg: bytes)
    ensures ParseTail(pre + Tail(msg), |pre|) == Ok(msg) <==> |msg| < 0x1_0000
  {
    var buf, i := pre + Tail(msg), |pre|;
    assert buf[i..i + 2] == Be16(HTYPE_NTOR);
    assert buf[i + 2..i + 4] == Be16(|msg| % 0x1_0000);
    assert buf[i + 4..] == msg;
    if |msg| < 0x1_0000 {
      assert buf[i + 4..i + 4 + |msg|] == msg;
    }
  }

  /** What a builder wrote a parser reads back, exactly when the handshake fits its 16-bit length. */
  lemma Extend2RoundTrip(net: Dotted, next: LinkSpec, msg: bytes)
    ensures var octets := net.parse(next.host).GetOr([127, 0, 0, 1]);
            Extend2Of(net, BuildExtend2(net, next, msg)) == Ok((next.(host := net.format(octets)), msg))
            <==> |msg| < 0x1_0000
  {
    var specs := ReadSpecs(net, next, Tail(msg));
    hide Spec, Tail, ParseSpecs, AddrBody, TakeSpec, ParseTail;
    var buf := BuildExtend2(net, next, msg);
    ReadTail(buf[..77], msg);
    assert buf == buf[..77] + Tail(msg);
  }

  lemma TakesAddr(net: Dotted, next: LinkSpec, acc: Specs)
    ensures TakeSpec(net, LSPEC_IPV4, AddrBody(net, next), acc)
         == acc.(host := net.format(net.parse(next.host).GetOr([127, 0, 0, 1])), port := next.port, haveAddr := true)
  {
    var addr := AddrBody(net, next);
    assert addr[..4] == net.parse(next.host).GetOr([127, 0, 0, 1]) && addr[4..] == Be16(next.port);
  }

  lemma TakesKeys(net: Dotted, next: LinkSpec, acc: Specs)
    ensures TakeSpec(net, LSPEC_NODE_ID, next.nodeId, acc) == acc.(nodeId := next.nodeId, haveId := true)
    ensures TakeSpec(net, LSPEC_STATIC_PUB, next.staticPub, acc) == acc.(staticPub := next.staticPub)
  {
  }

  /** The three specifiers a builder writes, read back one after another. */
  lemma ReadSpecs(net: Dotted, next: LinkSpec, post: bytes) returns (specs: Specs)
    ensures var octets := net.parse(next.host).GetOr([127, 0, 0, 1]);
            specs == Specs(net.format(octets), next.port, next.nodeId, next.staticPub, true, true)
    ensures var buf := [3] + Spec(LSPEC_IPV4, AddrBody(net, next)) + Spec(LSPEC_NODE_ID, next.nodeId)
                       + Spec(LSPEC_STATIC_PUB, next.staticPub) + post;
            buf[0] == 3 && |buf| == 77 + |post| && ParseSpecs(net, buf, 1, 3, NO_SPECS) == Ok((77, specs))
  {
    hide Spec, AddrBody, TakeSpec, Be16;
    var octets := net.parse(next.host).GetOr([127, 0, 0, 1]);
    var addr := AddrBody(net, next);
    var a1 := NO_SPECS.(host := net.format(octets), port := next.port, haveAddr := true);
    var a2 := a1.(nodeId := next.nodeId, haveId := true);
    specs := a2.(staticPub := next.staticPub);
    TakesAddr(net, next, NO_SPECS);
    TakesKeys(net, next, a1);
    TakesKeys(net, next, a2);
    var s1, s2, s3 := Spec(LSPEC_IPV4, addr), Spec(LSPEC_NODE_ID, next.nodeId), Spec(LSPEC_STATIC_PUB, next.staticPub);
    var buf := [3] + s1 + s2 + s3 + post;
    assert buf == [3] + s1 + (s2 + s3 + post);
    ReadSpec(net, [3], s2 + s3 + post, 3, NO_SPECS, LSPEC_IPV4, addr);
    assert buf == ([3] + s1) + s2 + (s3 + post);
    ReadSpec(net, [3] + s1, s3 + post, 2, a1, LSPEC_NODE_ID, next.nodeId);
    assert buf == ([3] + s1 + s2) + s3 + post;
    ReadSpec(net, [3] + s1 + s2, post, 1, a2, LSPEC_STATIC_PUB, next.staticPub);
    assert ParseSpecs(net, buf, 77, 0, specs) == Ok((77, specs));
  }

  // ── EXTENDED2 ───────────────────────────────────────────────────────

  function BuildExtended2(reply: bytes): (r: bytes)
    ensures |r| == 2 + |reply|
  {
    Be16(|reply| % 0x1_0000) + reply
  }

  function ParseExtended2(buf: bytes): Result<bytes, string> {
    if |buf| < 2 then Err("too short")
    else
      var n := FromBe16(buf[..2]);
      if |buf| < 2 + n then Err("truncated hdata") else Ok(buf[2..2 + n])
  }

  lemma Extended2RoundTrip(reply: bytes)
    ensures ParseExtended2(BuildExtended2(reply)) == Ok(reply) <==> |reply| < 0x1_0000
  {
    var buf := BuildExtended2(reply);
    assert buf[..2] == Be16(|reply| % 0x1_0000);
    if |reply| < 0x1_0000 {
      assert buf[2..2 + |reply|] == reply;
    }
  }
}

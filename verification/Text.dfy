/** Rust strings as their UTF-8 bytes: comparison, and hexadecimal. */
module Text {
  import opened Wrappers
  import opened Bytes
  import Sorting

  /** An ASCII literal. */
  function Ascii(s: string): (b: bytes)
    requires forall i :: 0 <= i < |s| ==> s[i] < 128 as char
    ensures |b| == |s| && forall i :: 0 <= i < |s| ==> b[i] == s[i] as int
  {
    seq(|s|, i requires 0 <= i < |s| => s[i] as int)
  }

  // ── Comparison ──────────────────────────────────────────────────────

  /** `a <= b`, byte by byte. */
  predicate Lex(a: bytes, b: bytes) {
    a == [] || (b != [] && (a[0] < b[0] || (a[0] == b[0] && Lex(a[1..], b[1..]))))
  }

  lemma {:induction false} LexTotal(a: bytes, b: bytes)
    ensures Lex(a, b) || Lex(b, a)
    ensures Lex(a, b) && Lex(b, a) ==> a == b
  {
    if a != [] && b != [] {
      LexTotal(a[1..], b[1..]);
      if a[0] == b[0] && a[1..] == b[1..] {
        assert a == [a[0]] + a[1..] && b == [b[0]] + b[1..];
      }
    }
  }

  lemma {:induction false} LexTransitive(a: bytes, b: bytes, c: bytes)
    requires Lex(a, b) && Lex(b, c)
    ensures Lex(a, c)
  {
    if a != [] && a[0] == b[0] == c[0] {
      LexTransitive(a[1..], b[1..], c[1..]);
    }
  }

  lemma LexOrders()
    ensures Sorting.Preorder(Lex)
  {
    forall a, b
      ensures Lex(a, b) || Lex(b, a)
    {
      LexTotal(a, b);
    }
    forall a, b, c | Lex(a, b) && Lex(b, c)
      ensures Lex(a, c)
    {
      LexTransitive(a, b, c);
    }
  }

  // ── Hexadecimal ─────────────────────────────────────────────────────

  function HexDigit(n: nat): byte
    requires n < 16
  {
    if n < 10 then 48 + n else 87 + n
  }

  /** Either case is read. */
  function HexValue(b: byte): (r: Option<nat>)
    ensures r.Some? ==> r.value < 16
  {
    if 48 <= b <= 57 then Some(b - 48)
    else if 97 <= b <= 102 then Some(b - 87)
    else if 65 <= b <= 70 then Some(b - 55)
    else None
  }

  function HexEncode(b: bytes): (h: bytes)
    ensures |h| == 2 * |b|
  {
    if b == [] then [] else [HexDigit(b[0] / 16), HexDigit(b[0] % 16)] + HexEncode(b[1..])
  }

  function HexDecode(h: bytes): (r: Option<bytes>)
    ensures r.Some? ==> |h| == 2 * |r.value|
  {
    if h == [] then Some([])
    else if |h| == 1 then None
    else
      var hi :- HexValue(h[0]);
      var lo :- HexValue(h[1]);
      var rest :- HexDecode(h[2..]);
      Some([16 * hi + lo] + rest)
  }

  lemma {:induction false} HexRoundTrip(b: bytes)
    ensures HexDecode(HexEncode(b)) == Some(b)
  {
    if b != [] {
      HexRoundTrip(b[1..]);
      assert HexEncode(b)[2..] == HexEncode(b[1..]);
      assert b == [b[0]] + b[1..];
    }
  }

  /** The letters of a text in lower case. */
  function Lowered(h: bytes): (r: bytes)
    ensures |r| == |h| && forall i :: 0 <= i < |h| ==> r[i] == if 65 <= h[i] <= 90 then h[i] + 32 else h[i]
  {
    seq(|h|, i requires 0 <= i < |h| => if 65 <= h[i] <= 90 then h[i] + 32 else h[i])
  }

  /** What is read is exactly what prints as that, but for the case of the letters. */
  lemma {:induction false} HexReads(h: bytes, b: bytes)
    ensures HexDecode(h) == Some(b) <==> Lowered(h) == HexEncode(b)
  {
    hide HexValue, HexDigit;
    if |h| >= 2 {
      LoweredParts(h);
      if b != [] {
        HexReads(h[2..], b[1..]);
        assert b == [b[0]] + b[1..];
        DigitReads(h[0], b[0] / 16);
        DigitReads(h[1], b[0] % 16);
        EncodedParts(b);
      }
    }
  }

  lemma LoweredParts(h: bytes)
    requires |h| >= 2
    ensures Lowered(h)[0] == Lowered([h[0]])[0] && Lowered(h)[1] == Lowered([h[1]])[0] && Lowered(h)[2..] == Lowered(h[2..])
    ensures Lowered(h) == [Lowered(h)[0], Lowered(h)[1]] + Lowered(h)[2..]
  {
  }

  lemma EncodedParts(b: bytes)
    requires b != []
    ensures |HexEncode(b)| >= 2
    ensures HexEncode(b)[0] == HexDigit(b[0] / 16) && HexEncode(b)[1] == HexDigit(b[0] % 16)
    ensures HexEncode(b)[2..] == HexEncode(b[1..])
  {
  }

  lemma DigitReads(c: byte, n: nat)
    requires n < 16
    ensures HexValue(c) == Some(n) <==> Lowered([c])[0] == HexDigit(n)
  {
  }

  /** A decoded fixed-size value, as `try_into` gives it. */
  function HexDecodeExactly(h: bytes, n: nat): (r: Option<bytes>)
    ensures r.Some? ==> |r.value| == n
  {
    var b := HexDecode(h);
    if b.Some? && |b.value| == n then b else None
  }

  /** Two texts with beginnings of one length. */
  lemma SplitSame(a: bytes, x: bytes, b: bytes, y: bytes)
    requires a + x == b + y && |a| == |b|
    ensures a == b && x == y
  {
    assert a == (a + x)[..|a|] == (b + y)[..|a|] == b;
    assert x == (a + x)[|a|..] == (b + y)[|a|..] == y;
  }
}

/** Compact JSON as the serializer prints it: strings, numbers and `null`, and why what is printed can be
    read back. */
module Json {
  import opened Wrappers
  import opened Bytes
  import opened Text

  const QUOTE: byte := 34
  const BACKSLASH: byte := 92

  function LowHex(n: nat): byte
    requires n < 16
  {
    HexDigit(n)
  }

  /** One byte of a string. */
  function EscapeByte(b: byte): (e: bytes)
    ensures e != [] && e[0] != QUOTE
  {
    if b == QUOTE then [BACKSLASH, QUOTE]
    else if b == BACKSLASH then [BACKSLASH, BACKSLASH]
    else if b == 8 then [BACKSLASH, 98]
    else if b == 9 then [BACKSLASH, 116]
    else if b == 10 then [BACKSLASH, 110]
    else if b == 12 then [BACKSLASH, 102]
    else if b == 13 then [BACKSLASH, 114]
    else if b < 32 then [BACKSLASH, 117, 48, 48, LowHex(b / 16), LowHex(b % 16)]
    else [b]
  }

  function Escaped(s: bytes): bytes {
    if s == [] then [] else EscapeByte(s[0]) + Escaped(s[1..])
  }

  function Quoted(s: bytes): bytes {
    [QUOTE] + (Escaped(s) + [QUOTE])
  }

  function Decimal(n: nat): (d: bytes)
    ensures d != [] && forall i :: 0 <= i < |d| ==> 48 <= d[i] <= 57
  {
    if n < 10 then [48 + n] else Decimal(n / 10) + [48 + n % 10]
  }

  function Null(): bytes {
    [110, 117, 108, 108]
  }

  function OptionalString(s: Option<bytes>): bytes {
    if s.None? then Null() else Quoted(s.value)
  }

  function OptionalNumber(n: Option<u16>): bytes {
    if n.None? then Null() else Decimal(n.value)
  }

  /** The escapes of section 7 of RFC 8259, and the literal of its section 3. */
  lemma EscapesOfJson(b: byte)
    ensures EscapeByte(8) == Ascii("\\b") && EscapeByte(9) == Ascii("\\t") && EscapeByte(10) == Ascii("\\n")
    ensures EscapeByte(12) == Ascii("\\f") && EscapeByte(13) == Ascii("\\r")
    ensures EscapeByte(34) == Ascii("\\\"") && EscapeByte(92) == Ascii("\\\\")
    ensures b < 32 && b !in {8, 9, 10, 12, 13} ==> EscapeByte(b) == Ascii("\\u00") + HexEncode([b])
    ensures b >= 32 && b !in {34, 92} ==> EscapeByte(b) == [b]
    ensures Null() == Ascii("null")
  {
    assert HexEncode([b]) == [HexDigit(b / 16), HexDigit(b % 16)] + HexEncode([]);
  }

  // ── Reading back ────────────────────────────────────────────────────

  /** The first bytes of an escaped byte tell how long it is. */
  lemma EscapeLength(p: byte, x: bytes, q: byte, y: bytes)
    requires EscapeByte(p) + x == EscapeByte(q) + y
    ensures |EscapeByte(p)| == |EscapeByte(q)|
  {
    var u, v := EscapeByte(p) + x, EscapeByte(q) + y;
    assert u[0] == EscapeByte(p)[0] && v[0] == EscapeByte(q)[0];
    if u[0] == BACKSLASH {
      assert u[1] == EscapeByte(p)[1] && v[1] == EscapeByte(q)[1];
    }
  }

  lemma EscapeByteInjective(p: byte, q: byte)
    requires EscapeByte(p) == EscapeByte(q)
    ensures p == q
  {
    if |EscapeByte(p)| == 6 {
      var a, b: nat := p, q;
      assert HexDigit(a / 16) == HexDigit(b / 16) && HexDigit(a % 16) == HexDigit(b % 16) by {
        assert EscapeByte(p)[4] == EscapeByte(q)[4] && EscapeByte(p)[5] == EscapeByte(q)[5];
      }
    } else if |EscapeByte(p)| == 2 {
      assert EscapeByte(p)[1] == EscapeByte(q)[1];
    } else {
      assert EscapeByte(p)[0] == EscapeByte(q)[0];
    }
  }

  lemma FirstByte(a: bytes, x: bytes)
    ensures var u := Escaped(a) + ([QUOTE] + x); u[0] == QUOTE <==> a == []
  {
    hide EscapeByte;
    if a != [] {
      assert (Escaped(a) + ([QUOTE] + x))[0] == EscapeByte(a[0])[0];
    }
  }

  lemma {:induction false} EscapedSplits(a: bytes, x: bytes, b: bytes, y: bytes)
    requires Escaped(a) + ([QUOTE] + x) == Escaped(b) + ([QUOTE] + y)
    ensures a == b && x == y
    decreases |a|
  {
    hide EscapeByte;
    var u, v := Escaped(a) + ([QUOTE] + x), Escaped(b) + ([QUOTE] + y);
    FirstByte(a, x);
    FirstByte(b, y);
    if a == [] || b == [] {
      assert a == b;
      assert u == [QUOTE] + x && v == [QUOTE] + y;
      SplitSame([QUOTE], x, [QUOTE], y);
    } else {
      var ra, rb := Escaped(a[1..]) + ([QUOTE] + x), Escaped(b[1..]) + ([QUOTE] + y);
      assert u == EscapeByte(a[0]) + ra && v == EscapeByte(b[0]) + rb;
      EscapeLength(a[0], ra, b[0], rb);
      SplitSame(EscapeByte(a[0]), ra, EscapeByte(b[0]), rb);
      EscapeByteInjective(a[0], b[0]);
      EscapedSplits(a[1..], x, b[1..], y);
      assert a == [a[0]] + a[1..] && b == [b[0]] + b[1..];
    }
  }

  /** A printed string ends where it ends, whatever is in it and whatever follows. */
  lemma QuotedSplits(a: bytes, x: bytes, b: bytes, y: bytes)
    requires Quoted(a) + x == Quoted(b) + y
    ensures a == b && x == y
  {
    var u, v := Escaped(a) + ([QUOTE] + x), Escaped(b) + ([QUOTE] + y);
    assert Quoted(a) + x == [QUOTE] + u && Quoted(b) + y == [QUOTE] + v;
    SplitSame([QUOTE], u, [QUOTE], v);
    EscapedSplits(a, x, b, y);
  }

  function FromDecimal(d: bytes): int {
    if d == [] then 0
    else
      var last: int := d[|d| - 1];
      10 * FromDecimal(d[..|d| - 1]) + last - 48
  }

  lemma {:induction false} DecimalReads(n: nat)
    ensures FromDecimal(Decimal(n)) == n
  {
    if n >= 10 {
      DecimalReads(n / 10);
      var d := Decimal(n);
      assert d[..|d| - 1] == Decimal(n / 10);
    } else {
      assert Decimal(n)[..0] == [];
    }
  }

  predicate IsDigit(b: byte) {
    48 <= b <= 57
  }

  function LeadingDigits(u: bytes): nat {
    if u == [] || !IsDigit(u[0]) then 0 else 1 + LeadingDigits(u[1..])
  }

  lemma {:induction false} DigitsThen(a: bytes, x: bytes)
    requires (forall i :: 0 <= i < |a| ==> IsDigit(a[i])) && x != [] && !IsDigit(x[0])
    ensures LeadingDigits(a + x) == |a|
  {
    if a == [] {
      assert a + x == x;
    } else {
      assert (a + x)[1..] == a[1..] + x;
      DigitsThen(a[1..], x);
    }
  }

  /** A printed number ends at the first byte that is no digit. */
  lemma DecimalSplits(m: nat, x: bytes, n: nat, y: bytes)
    requires Decimal(m) + x == Decimal(n) + y
    requires x != [] && y != [] && !IsDigit(x[0]) && !IsDigit(y[0])
    ensures m == n && x == y
  {
    DigitsThen(Decimal(m), x);
    DigitsThen(Decimal(n), y);
    SplitSame(Decimal(m), x, Decimal(n), y);
    DecimalReads(m);
    DecimalReads(n);
  }

  lemma OptionalStringSplits(a: Option<bytes>, x: bytes, b: Option<bytes>, y: bytes)
    requires OptionalString(a) + x == OptionalString(b) + y
    ensures a == b && x == y
  {
    assert (OptionalString(a) + x)[0] == OptionalString(a)[0];
    assert (OptionalString(b) + y)[0] == OptionalString(b)[0];
    if a.None? {
      SplitSame(Null(), x, OptionalString(b), y);
    } else {
      QuotedSplits(a.value, x, b.value, y);
    }
  }

  lemma OptionalNumberSplits(m: Option<u16>, x: bytes, n: Option<u16>, y: bytes)
    requires OptionalNumber(m) + x == OptionalNumber(n) + y
    requires x != [] && y != [] && !IsDigit(x[0]) && !IsDigit(y[0])
    ensures m == n && x == y
  {
    assert (OptionalNumber(m) + x)[0] == OptionalNumber(m)[0];
    assert (OptionalNumber(n) + y)[0] == OptionalNumber(n)[0];
    if m.None? {
      SplitSame(Null(), x, OptionalNumber(n), y);
    } else {
      DecimalSplits(m.value, x, n.value, y);
    }
  }
}

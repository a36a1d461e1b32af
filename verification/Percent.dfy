/** Percent-encoding of one TSV field (`src/util.rs`). */
module Percent {
  import opened Base
  import Utf8

  const HEX: string := "0123456789ABCDEF"

  /** Bytes that may not appear raw inside a field. */
  predicate Reserved(b: nat) { b < 0x20 || b == 0x25 || b == 0x7f }

  function HexVal(c: Byte): (r: Option<Byte>)
    ensures r.Some? ==> r.value < 16
  {
    var n: int := c;
    if 48 <= n <= 57 then Some(n - 48)
    else if 97 <= n <= 102 then Some(n - 97 + 10)
    else if 65 <= n <= 70 then Some(n - 65 + 10)
    else None
  }

  lemma HexValOfDigit(n: nat)
    requires n < 16
    ensures HEX[n] as int < 128 && HexVal(HEX[n] as int) == Some(n)
    ensures !Reserved(HEX[n] as int)
  {
  }

  // ---- encoding -----------------------------------------------------------

  function EscapeByte(b: Byte): (r: seq<Byte>)
    ensures r != []
  {
    if Reserved(b) then
      HexValOfDigit(b / 16);
      HexValOfDigit(b % 16);
      [0x25, HEX[b / 16] as int, HEX[b % 16] as int]
    else [b]
  }

  function EscapeBytes(b: seq<Byte>): seq<Byte> {
    if b == [] then [] else EscapeByte(b[0]) + EscapeBytes(b[1..])
  }

  function EscapeChar(c: char): string {
    if Reserved(c as int) then ['%', HEX[c as int / 16], HEX[c as int % 16]] else [c]
  }

  /** The encoded field as text. */
  function PctEncode(s: string): string {
    if s == "" then "" else EscapeChar(s[0]) + PctEncode(s[1..])
  }

  lemma {:induction false} EscapeBytesAppend(a: seq<Byte>, b: seq<Byte>)
    ensures EscapeBytes(a + b) == EscapeBytes(a) + EscapeBytes(b)
  {
    if a == [] {
      assert a + b == b;
    } else {
      assert (a + b)[1..] == a[1..] + b;
      EscapeBytesAppend(a[1..], b);
    }
  }

  lemma EscapeNext(b: seq<Byte>, i: nat)
    requires i < |b|
    ensures EscapeBytes(b[..i + 1]) == EscapeBytes(b[..i]) + EscapeByte(b[i])
  {
    assert b[..i + 1] == b[..i] + [b[i]];
    EscapeBytesAppend(b[..i], [b[i]]);
    assert [b[i]][1..] == [];
    assert EscapeBytes([b[i]]) == EscapeByte(b[i]);
  }

  lemma {:induction false} EscapeHighBytes(b: seq<Byte>)
    requires forall i :: 0 <= i < |b| ==> b[i] >= 0x80
    ensures EscapeBytes(b) == b
  {
    if b != [] {
      EscapeHighBytes(b[1..]);
    }
  }

  lemma EscapeOneChar(c: char)
    ensures EscapeBytes(Utf8.EncodeChar(c)) == Utf8.Encode(EscapeChar(c))
  {
    var b := Utf8.EncodeChar(c);
    if c as int < 0x80 {
      assert b[1..] == [];
      assert EscapeBytes(b) == EscapeByte(c as int);
      if Reserved(c as int) {
        var h, l := HEX[c as int / 16], HEX[c as int % 16];
        HexValOfDigit(c as int / 16);
        HexValOfDigit(c as int % 16);
        assert EscapeChar(c)[1..] == [h, l];
        assert [h, l][1..] == [l];
        assert [l][1..] == [];
        assert Utf8.Encode([l]) == [l as int];
        assert Utf8.Encode([h, l]) == [h as int, l as int];
        assert Utf8.Encode(EscapeChar(c)) == [0x25, h as int, l as int];
      }
    } else {
      EscapeHighBytes(b);
      assert EscapeChar(c)[1..] == [];
    }
  }

  /** Escaping byte by byte is escaping character by character: multi-byte characters pass through. */
  lemma {:induction false} EscapeIsCharwise(s: string)
    ensures EscapeBytes(Utf8.Encode(s)) == Utf8.Encode(PctEncode(s))
  {
    if s != "" {
      EscapeBytesAppend(Utf8.EncodeChar(s[0]), Utf8.Encode(s[1..]));
      EscapeOneChar(s[0]);
      EscapeIsCharwise(s[1..]);
      Utf8.EncodeAppend(EscapeChar(s[0]), PctEncode(s[1..]));
    }
  }

  /** `pct_encode`. Its `from_utf8` never falls back to the empty string. */
  method EncodeField(s: string) returns (r: string)
    ensures r == PctEncode(s)
  {
    var b := Utf8.Encode(s);
    var out: seq<Byte> := [];
    for i := 0 to |b|
      invariant out == EscapeBytes(b[..i])
    {
      EscapeNext(b, i);
      if Reserved(b[i]) {
        HexValOfDigit(b[i] / 16);
        HexValOfDigit(b[i] % 16);
        out := out + [0x25, HEX[b[i] / 16] as int, HEX[b[i] % 16] as int];
      } else {
        out := out + [b[i]];
      }
    }
    assert b[..|b|] == b;
    EscapeIsCharwise(s);
    Utf8.DecodeEncode(PctEncode(s));
    var d := Utf8.Decode(out);
    r := if d.Some? then d.value else "";
  }

  // ---- decoding -----------------------------------------------------------

  /** Whether an escape can be read at the front. */
  predicate AtEscape(b: seq<Byte>) {
    |b| > 2 && b[0] == 0x25 && HexVal(b[1]).Some? && HexVal(b[2]).Some?
  }

  function Escaped(b: seq<Byte>): Byte
    requires AtEscape(b)
  {
    HexVal(b[1]).value * 16 + HexVal(b[2]).value
  }

  function Unescape(b: seq<Byte>): seq<Byte> {
    if b == [] then []
    else if AtEscape(b) then [Escaped(b)] + Unescape(b[3..])
    else [b[0]] + Unescape(b[1..])
  }

  function PctDecode(s: string): string { Utf8.Lossy(Unescape(Utf8.Encode(s))) }

  lemma UnescapeAt(b: seq<Byte>, i: nat)
    requires i < |b|
    ensures AtEscape(b[i..]) ==> i + 2 < |b| && Unescape(b[i..]) == [Escaped(b[i..])] + Unescape(b[i + 3..])
    ensures !AtEscape(b[i..]) ==> Unescape(b[i..]) == [b[i]] + Unescape(b[i + 1..])
  {
    var rest := b[i..];
    if AtEscape(rest) {
      assert rest[3..] == b[i + 3..];
    } else {
      assert rest[1..] == b[i + 1..];
    }
  }

  lemma Shift(out: seq<Byte>, x: Byte, rest: seq<Byte>)
    ensures out + ([x] + rest) == out + [x] + rest
  {
  }

  /** `pct_decode`: an index loop that skips three bytes at an escape. */
  method DecodeField(s: string) returns (r: string)
    ensures r == PctDecode(s)
  {
    var b := Utf8.Encode(s);
    var out: seq<Byte> := [];
    var i := 0;
    assert b[0..] == b;
    while i < |b|
      invariant 0 <= i <= |b|
      invariant Unescape(b) == out + Unescape(b[i..])
    {
      UnescapeAt(b, i);
      if b[i] == 0x25 && i + 2 < |b| && HexVal(b[i + 1]).Some? && HexVal(b[i + 2]).Some? {
        var x: Byte := HexVal(b[i + 1]).value * 16 + HexVal(b[i + 2]).value;
        Shift(out, x, Unescape(b[i + 3..]));
        out := out + [x];
        i := i + 3;
      } else {
        Shift(out, b[i], Unescape(b[i + 1..]));
        out := out + [b[i]];
        i := i + 1;
      }
    }
    assert b[i..] == [];
    assert out + [] == out;
    r := Utf8.Lossy(out);
  }

  // ---- the round trip -----------------------------------------------------

  lemma {:induction false} UnescapeEscape(b: seq<Byte>)
    ensures Unescape(EscapeBytes(b)) == b
  {
    if b != [] {
      var e := EscapeByte(b[0]);
      var rest := EscapeBytes(b[1..]);
      UnescapeEscape(b[1..]);
      if Reserved(b[0]) {
        HexValOfDigit(b[0] / 16);
        HexValOfDigit(b[0] % 16);
        assert AtEscape(e + rest);
        assert (e + rest)[3..] == rest;
      } else {
        assert (e + rest)[1..] == rest;
      }
    }
  }

  /** Any text survives storage: tabs, newlines, carriage returns, `%`, and non-ASCII. */
  lemma RoundTrip(s: string)
    ensures PctDecode(PctEncode(s)) == s
  {
    EscapeIsCharwise(s);
    UnescapeEscape(Utf8.Encode(s));
    Utf8.LossyEncode(s);
  }

  /** An encoded field holds no control character at all. */
  lemma {:induction false} EncodedIsClean(s: string)
    ensures forall c :: c in PctEncode(s) ==> c as int >= 0x20 && c as int != 0x7f
  {
    if s != "" {
      EncodedIsClean(s[1..]);
      if Reserved(s[0] as int) {
        HexValOfDigit(s[0] as int / 16);
        HexValOfDigit(s[0] as int % 16);
      }
    }
  }

  /** A field of ordinary characters is stored as it is. */
  lemma {:induction false} OrdinaryIsKept(s: string)
    requires forall c :: c in s ==> c as int >= 0x20 && c != '%' && c as int != 0x7f
    ensures PctEncode(s) == s
  {
    if s != "" {
      assert s[0] in s && forall c :: c in s[1..] ==> c in s;
      OrdinaryIsKept(s[1..]);
      Uncons(s);
    }
  }

  /** Everything else becomes `%` and two upper-case hexadecimal digits (section 2.1 of RFC 3986). */
  lemma SpecialIsEscaped(rest: string)
    ensures PctEncode("%" + rest) == "%25" + PctEncode(rest) && PctEncode("\t" + rest) == "%09" + PctEncode(rest)
    ensures PctEncode("\n" + rest) == "%0A" + PctEncode(rest) && PctEncode("\r" + rest) == "%0D" + PctEncode(rest)
    ensures PctEncode("\U{1F}" + rest) == "%1F" + PctEncode(rest)
    ensures PctEncode("\U{7F}" + rest) == "%7F" + PctEncode(rest)
  {
    assert forall c: char :: ([c] + rest)[1..] == rest;
  }

  /** Two digits of either case behind a `%` are read as a byte; a `%` without them stands for itself. */
  lemma EscapesRead(h: Byte, l: Byte, rest: seq<Byte>)
    ensures Unescape([0x25, 0x34, 0x65] + rest) == [0x4E] + Unescape(rest)
    ensures Unescape([0x25, 0x43, 0x33] + rest) == [0xC3] + Unescape(rest)
    ensures HexVal(h).None? || HexVal(l).None? ==> Unescape([0x25, h, l] + rest) == [0x25] + Unescape([h, l] + rest)
    ensures HexVal(h).None? <==>
      !(0x30 <= h <= 0x39) && !(0x41 <= h <= 0x46) && !(0x61 <= h <= 0x66)
    ensures Unescape([0x25]) == [0x25] && Unescape([0x25, h]) == [0x25] + Unescape([h])
  {
    assert ([0x25, 0x34, 0x65] + rest)[3..] == rest;
    assert ([0x25, 0x43, 0x33] + rest)[3..] == rest;
    assert ([0x25, h, l] + rest)[1..] == [h, l] + rest;
    assert [0x25, h][1..] == [h];
  }

  /** Raw fields of logs written before every field was encoded read back unchanged. */
  lemma {:induction false} LegacyIdentity(s: string)
    requires '%' !in s
    ensures PctDecode(s) == s
  {
    Utf8.EncodeAscii(s, '%');
    UnescapeWithoutPercent(Utf8.Encode(s));
    Utf8.LossyEncode(s);
  }

  lemma {:induction false} UnescapeWithoutPercent(b: seq<Byte>)
    requires 0x25 !in b
    ensures Unescape(b) == b
  {
    if b != [] {
      UnescapeWithoutPercent(b[1..]);
    }
  }
}

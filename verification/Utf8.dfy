/** UTF-8 as files store it (section 3 of RFC 3629), with the strict and the lossy reader. */
module Utf8 {
  import opened Base

  function EncodeChar(c: char): (b: seq<Byte>)
    ensures 1 <= |b| <= 4
    ensures c as int < 0x80 ==> b == [c as int]
    ensures c as int >= 0x80 ==> forall i :: 0 <= i < |b| ==> b[i] >= 0x80
  {
    var n := c as int;
    if n < 0x80 then [n]
    else if n < 0x800 then [0xC0 + n / 64, 0x80 + n % 64]
    else if n < 0x1_0000 then [0xE0 + n / 4096, 0x80 + n / 64 % 64, 0x80 + n % 64]
    else [0xF0 + n / 262144, 0x80 + n / 4096 % 64, 0x80 + n / 64 % 64, 0x80 + n % 64]
  }

  function Encode(s: string): seq<Byte> {
    if s == "" then [] else EncodeChar(s[0]) + Encode(s[1..])
  }

  /** What a reader finds at the front of a byte sequence. */
  datatype Chunk = Good(c: char, len: nat) | Bad(len: nat)

  /** The six payload bits of a continuation byte. */
  function Bits(b: seq<Byte>, i: nat): int
    requires i < |b|
  {
    var x: int := b[i];
    x - 0x80
  }

  predicate In(b: seq<Byte>, i: nat, lo: nat, hi: nat) {
    i < |b| && lo <= b[i] <= hi
  }

  /** One scalar value, or the maximal ill-formed part that a lossy reader replaces. */
  function Next(b: seq<Byte>): (r: Chunk)
    requires b != []
    ensures 1 <= r.len <= |b|
  {
    var x: int := b[0];
    if x < 0x80 then Good(x as char, 1)
    else if 0xC2 <= x <= 0xDF then
      if In(b, 1, 0x80, 0xBF) then Good(((x - 0xC0) * 64 + Bits(b, 1)) as char, 2) else Bad(1)
    else if 0xE0 <= x <= 0xEF then
      if !In(b, 1, if x == 0xE0 then 0xA0 else 0x80, if x == 0xED then 0x9F else 0xBF) then Bad(1)
      else if !In(b, 2, 0x80, 0xBF) then Bad(2)
      else Good(((x - 0xE0) * 4096 + Bits(b, 1) * 64 + Bits(b, 2)) as char, 3)
    else if 0xF0 <= x <= 0xF4 then
      if !In(b, 1, if x == 0xF0 then 0x90 else 0x80, if x == 0xF4 then 0x8F else 0xBF) then Bad(1)
      else if !In(b, 2, 0x80, 0xBF) then Bad(2)
      else if !In(b, 3, 0x80, 0xBF) then Bad(3)
      else Good(((x - 0xF0) * 262144 + Bits(b, 1) * 4096 + Bits(b, 2) * 64 + Bits(b, 3)) as char, 4)
    else Bad(1)
  }

  /** `String::from_utf8`: all or nothing. */
  function Decode(b: seq<Byte>): Option<string> {
    if b == [] then Some("")
    else match Next(b)
      case Bad(_) => None
      case Good(c, n) =>
        match Decode(b[n..])
        case None => None
        case Some(s) => Some([c] + s)
  }

  /** `String::from_utf8_lossy`: U+FFFD for each ill-formed part. */
  function Lossy(b: seq<Byte>): string {
    if b == [] then ""
    else
      var r := Next(b);
      [if r.Good? then r.c else '\U{FFFD}'] + Lossy(b[r.len..])
  }

  lemma NextOfEncoded(c: char, rest: seq<Byte>)
    ensures Next(EncodeChar(c) + rest) == Good(c, |EncodeChar(c)|)
  {
    var n := c as int;
    if n < 0x800 {
    } else if n < 0x1_0000 {
      NextOfThree(c, rest);
    } else {
      NextOfFour(c, rest);
    }
  }

  lemma NextOfThree(c: char, rest: seq<Byte>)
    requires 0x800 <= c as int < 0x1_0000
    ensures Next(EncodeChar(c) + rest) == Good(c, 3)
  {
    var n := c as int;
    var b := EncodeChar(c) + rest;
    var x, y, z := n / 4096, n / 64 % 64, n % 64;
    assert n == x * 4096 + y * 64 + z;
    assert b[0] == 0xE0 + x && Bits(b, 1) == y && Bits(b, 2) == z;
    assert In(b, 1, if x == 0 then 0xA0 else 0x80, if x == 13 then 0x9F else 0xBF);
  }

  lemma FourParts(n: nat)
    ensures n == n / 262144 * 262144 + n / 4096 % 64 * 4096 + n / 64 % 64 * 64 + n % 64
  {
    var a := n / 64;
    var b := a / 64;
    assert n / 4096 == b;
    assert n / 262144 == b / 64;
  }

  lemma NextOfFour(c: char, rest: seq<Byte>)
    requires 0x1_0000 <= c as int
    ensures Next(EncodeChar(c) + rest) == Good(c, 4)
  {
    var n := c as int;
    var b := EncodeChar(c) + rest;
    var x, y, z, w := n / 262144, n / 4096 % 64, n / 64 % 64, n % 64;
    FourParts(n);
    assert x <= 4 && (x == 0 ==> y >= 16) && (x == 4 ==> y <= 15);
    assert b[0] == 0xF0 + x && b[1] == 0x80 + y && b[2] == 0x80 + z && b[3] == 0x80 + w;
    FourBytes(b, x, y, z, w);
  }

  lemma FourBytes(b: seq<Byte>, x: nat, y: nat, z: nat, w: nat)
    requires x <= 4 && y < 64 && z < 64 && w < 64
    requires (x == 0 ==> y >= 16) && (x == 4 ==> y <= 15)
    requires |b| >= 4 && b[0] == 0xF0 + x && b[1] == 0x80 + y && b[2] == 0x80 + z && b[3] == 0x80 + w
    ensures var v := x * 262144 + y * 4096 + z * 64 + w;
      0x1_0000 <= v < 0x11_0000 && Next(b) == Good(v as char, 4)
  {
  }

  lemma NextOfTruncated(c: char, k: nat)
    requires 0 < k < |EncodeChar(c)|
    ensures Next(EncodeChar(c)[..k]).Bad?
  {
  }

  lemma {:induction false} DecodeEncode(s: string)
    ensures Decode(Encode(s)) == Some(s)
  {
    hide Next, EncodeChar;
    if s != "" {
      NextOfEncoded(s[0], Encode(s[1..]));
      assert Encode(s)[|EncodeChar(s[0])|..] == Encode(s[1..]);
      DecodeEncode(s[1..]);
      assert s == [s[0]] + s[1..];
    }
  }

  lemma {:induction false} LossyEncode(s: string)
    ensures Lossy(Encode(s)) == s
  {
    hide Next, EncodeChar;
    if s != "" {
      NextOfEncoded(s[0], Encode(s[1..]));
      assert Encode(s)[|EncodeChar(s[0])|..] == Encode(s[1..]);
      LossyEncode(s[1..]);
      assert s == [s[0]] + s[1..];
    }
  }

  /** The examples of section 7 of RFC 3629. */
  lemma Rfc3629Examples()
    ensures EncodeChar('A') == [0x41] && EncodeChar('.') == [0x2E]
    ensures EncodeChar('\U{2262}') == [0xE2, 0x89, 0xA2] && EncodeChar('\U{0391}') == [0xCE, 0x91]
    ensures EncodeChar('\U{D55C}') == [0xED, 0x95, 0x9C] && EncodeChar('\U{AD6D}') == [0xEA, 0xB5, 0xAD]
    ensures EncodeChar('\U{C5B4}') == [0xEC, 0x96, 0xB4] && EncodeChar('\U{65E5}') == [0xE6, 0x97, 0xA5]
    ensures EncodeChar('\U{672C}') == [0xE6, 0x9C, 0xAC] && EncodeChar('\U{8A9E}') == [0xE8, 0xAA, 0x9E]
    ensures EncodeChar('\U{233B4}') == [0xF0, 0xA3, 0x8E, 0xB4]
  {
  }

  /** A byte that starts no character is replaced, and so is a character cut short by an ASCII byte, once each. */
  lemma LossyReplaces(x: Byte, c: char, k: nat, rest: seq<Byte>)
    requires 0x80 <= x <= 0xC1 || x >= 0xF5
    requires 0 < k < |EncodeChar(c)| && (rest != [] ==> rest[0] < 0x80)
    ensures Lossy([x] + rest) == ['\U{FFFD}'] + Lossy(rest)
    ensures Lossy(EncodeChar(c)[..k] + rest) == ['\U{FFFD}'] + Lossy(rest)
  {
    assert ([x] + rest)[1..] == rest;
    NextOfCut(c, k, rest);
    assert (EncodeChar(c)[..k] + rest)[k..] == rest;
  }

  lemma NextOfCut(c: char, k: nat, rest: seq<Byte>)
    requires 0 < k < |EncodeChar(c)| && (rest != [] ==> rest[0] < 0x80)
    ensures Next(EncodeChar(c)[..k] + rest) == Bad(k)
  {
    NextOfEncoded(c, []);
    assert EncodeChar(c) + [] == EncodeChar(c);
    var b := EncodeChar(c)[..k] + rest;
    assert forall i :: 0 <= i < k ==> b[i] == EncodeChar(c)[i];
    assert k < |b| ==> b[k] < 0x80;
  }

  lemma EncodeNothing()
    ensures Encode("") == []
  {
  }

  lemma {:induction false} EncodeAppend(s: string, t: string)
    ensures Encode(s + t) == Encode(s) + Encode(t)
  {
    hide EncodeChar;
    if s == "" {
      assert s + t == t;
    } else {
      assert (s + t)[1..] == s[1..] + t;
      EncodeAppend(s[1..], t);
    }
  }

  /** An ASCII byte occurs in the encoding only where its character occurs in the text. */
  lemma {:induction false} EncodeAscii(s: string, c: char)
    requires c as int < 0x80
    requires c !in s
    ensures (c as int) !in Encode(s)
  {
    if s != "" {
      EncodeAscii(s[1..], c);
    }
  }

  /** Cutting an encoding at any byte leaves a prefix of the text, or nothing a strict reader accepts. */
  lemma {:induction false} DecodeOfPrefix(s: string, b: seq<Byte>)
    requires b <= Encode(s)
    ensures Decode(b).Some? ==> Decode(b).value <= s && b == Encode(Decode(b).value)
  {
    hide Next, EncodeChar;
    if s != "" && b != [] {
      var e := EncodeChar(s[0]);
      if |b| < |e| {
        assert b == e[..|b|];
        NextOfTruncated(s[0], |b|);
      } else {
        var rest := b[|e|..];
        assert b == e + rest;
        NextOfEncoded(s[0], rest);
        assert rest <= Encode(s[1..]);
        DecodeOfPrefix(s[1..], rest);
        if Decode(rest).Some? {
          var t := Decode(rest).value;
          assert ([s[0]] + t)[1..] == t;
          assert s == [s[0]] + s[1..];
        }
      }
    }
  }
}

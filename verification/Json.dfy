/** The JSON strings the program writes and the string arrays it reads (`src/util.rs`, `src/api.rs`). */
module Json {
  import opened Base
  import opened Text

  const LOWER_HEX: string := "0123456789abcdef"

  // ---- writing ------------------------------------------------------------

  function EscapeChar(c: char): (r: string)
    ensures r != ""
  {
    if c == '"' then "\\\""
    else if c == '\\' then "\\\\"
    else if c == '\n' then "\\n"
    else if c == '\r' then "\\r"
    else if c == '\t' then "\\t"
    else if c as int < 0x20 then "\\u00" + [LOWER_HEX[c as int / 16], LOWER_HEX[c as int % 16]]
    else [c]
  }

  function Escape(s: string): string {
    if s == "" then "" else EscapeChar(s[0]) + Escape(s[1..])
  }

  /** `json_string`. */
  function Quote(s: string): string { "\"" + Escape(s) + "\"" }

  lemma {:induction false} EscapeAppend(a: string, b: string)
    ensures Escape(a + b) == Escape(a) + Escape(b)
  {
    if a == "" {
      assert a + b == b;
    } else {
      assert (a + b)[1..] == a[1..] + b;
      EscapeAppend(a[1..], b);
      Assoc(EscapeChar(a[0]), Escape(a[1..]), Escape(b));
    }
  }

  lemma EscapeNext(s: string, i: nat)
    requires i < |s|
    ensures Escape(s[..i + 1]) == Escape(s[..i]) + EscapeChar(s[i])
  {
    hide EscapeChar;
    assert s[..i + 1] == s[..i] + [s[i]];
    EscapeAppend(s[..i], [s[i]]);
    assert [s[i]][1..] == "";
    assert Escape([s[i]]) == EscapeChar(s[i]) + "";
  }

  method Render(s: string) returns (out: string)
    ensures out == Quote(s)
  {
    out := "\"";
    for i := 0 to |s|
      invariant out == "\"" + Escape(s[..i])
    {
      hide Escape, EscapeChar;
      EscapeNext(s, i);
      Assoc("\"", Escape(s[..i]), EscapeChar(s[i]));
      out := out + EscapeChar(s[i]);
    }
    assert s[..|s|] == s;
    out := out + "\"";
  }

  // ---- any other reader ---------------------------------------------------

  /** The value of one hexadecimal digit. */
  function HexDigit(c: char): (r: Option<nat>)
    ensures r.Some? ==> r.value < 16
  {
    if '0' <= c <= '9' then Some(c as int - '0' as int)
    else if 'a' <= c <= 'f' then Some(c as int - 'a' as int + 10)
    else if 'A' <= c <= 'F' then Some(c as int - 'A' as int + 10)
    else None
  }

  /** The character that the four digits of a numeric escape stand for; surrogates are not written by the program. */
  function Numeric(s: string): Option<char>
    requires |s| >= 4
  {
    match (HexDigit(s[0]), HexDigit(s[1]), HexDigit(s[2]), HexDigit(s[3]))
    case (Some(a), Some(b), Some(c), Some(d)) =>
      var n := 4096 * a + 256 * b + 16 * c + d;
      if n < 0xD800 || n >= 0xE000 then Some(n as char) else None
    case _ => None
  }

  function Simple(c: char): Option<char> {
    if c == '"' || c == '\\' || c == '/' then Some(c)
    else if c == 'b' then Some('\U{08}') else if c == 'f' then Some('\U{0C}')
    else if c == 'n' then Some('\n') else if c == 'r' then Some('\r') else if c == 't' then Some('\t')
    else None
  }

  /** What stands behind an opening quote, by section 7 of RFC 8259, and the text behind the closing one. */
  function StringValue(s: string): (r: Option<(string, string)>)
    ensures r.Some? ==> |r.value.1| < |s|
  {
    if s == "" || s[0] as int < 0x20 then None
    else if s[0] == '"' then Some(("", s[1..]))
    else if s[0] != '\\' then Prepend(s[0], StringValue(s[1..]))
    else if |s| >= 6 && s[1] == 'u' && Numeric(s[2..]).Some? then Prepend(Numeric(s[2..]).value, StringValue(s[6..]))
    else if |s| >= 2 && Simple(s[1]).Some? then Prepend(Simple(s[1]).value, StringValue(s[2..]))
    else None
  }

  function Prepend(c: char, r: Option<(string, string)>): Option<(string, string)> {
    match r case Some((v, rest)) => Some(([c] + v, rest)) case None => None
  }

  lemma LowerHexDigit(n: nat)
    requires n < 16
    ensures HexDigit(LOWER_HEX[n]) == Some(n)
  {
  }

  lemma EscapeHasValue(c: char, rest: string)
    ensures StringValue(EscapeChar(c) + rest) == Prepend(c, StringValue(rest))
  {
    var e := EscapeChar(c);
    var s := e + rest;
    if |e| == 1 {
      assert s[1..] == rest;
    } else if |e| == 2 {
      assert s[2..] == rest;
    } else {
      var h, l := c as int / 16, c as int % 16;
      LowerHexDigit(h);
      LowerHexDigit(l);
      assert e == "\\u00" + [LOWER_HEX[h], LOWER_HEX[l]];
      assert s[2..][0] == '0' && s[2..][1] == '0' && s[2..][2] == LOWER_HEX[h] && s[2..][3] == LOWER_HEX[l];
      assert s[6..] == rest;
    }
  }

  lemma {:induction false} EscapeIsJson(s: string, rest: string)
    ensures StringValue(Escape(s) + "\"" + rest) == Some((s, rest))
  {
    if s == "" {
      var t := Escape(s) + "\"" + rest;
      assert t[0] == '"' && t[1..] == rest;
    } else {
      var tail := Escape(s[1..]) + "\"" + rest;
      assert Escape(s) + "\"" + rest == EscapeChar(s[0]) + tail;
      hide Escape, EscapeChar, StringValue;
      EscapeHasValue(s[0], tail);
      EscapeIsJson(s[1..], rest);
      Uncons(s);
    }
  }

  /** Every string the program writes is a JSON string, and any JSON reader gets the same string back. */
  lemma QuoteIsJson(s: string, rest: string)
    ensures Quote(s) != "" && Quote(s)[0] == '"' && StringValue(Quote(s)[1..] + rest) == Some((s, rest))
  {
    EscapeIsJson(s, rest);
    hide Escape, StringValue;
    assert Quote(s)[1..] == Escape(s) + "\"";
  }

  // ---- reading ------------------------------------------------------------

  function Unescaped(c: char): char {
    if c == 'n' then '\n' else if c == 't' then '\t' else if c == 'r' then '\r' else c
  }

  /** The literal behind an opening quote, and what follows its closing quote. */
  function Literal(s: string): (r: (string, string))
    ensures |r.1| <= |s|
  {
    if s == "" then ("", "")
    else if s[0] == '\\' then
      if |s| == 1 then ("", "")
      else var r := Literal(s[2..]); ([Unescaped(s[1])] + r.0, r.1)
    else if s[0] == '"' then ("", s[1..])
    else var r := Literal(s[1..]); ([s[0]] + r.0, r.1)
  }

  function NonEmpty(s: string): seq<string> { if s == "" then [] else [s] }

  /** Every literal, trimmed, blanks left out; anything between literals is skipped. */
  function Literals(s: string): seq<string>
    decreases |s|
  {
    if s == "" then []
    else if s[0] == '"' then
      var r := Literal(s[1..]);
      NonEmpty(Trim(r.0)) + Literals(r.1)
    else Literals(s[1..])
  }

  /** The text inside the first `[` and the next `]`, wherever they stand. */
  function Inner(text: string): string {
    var start := IndexOf(text, '[');
    if start == |text| then ""
    else
      var rest := text[start + 1..];
      rest[..IndexOf(rest, ']')]
  }

  function Strings(text: string): seq<string> { Literals(Inner(text)) }

  /** The inner loop of `extract_string_array`. */
  method ReadLiteral(chars: string, from: nat) returns (s: string, i: nat)
    requires from <= |chars|
    ensures from <= i <= |chars|
    ensures (s, chars[i..]) == Literal(chars[from..])
  {
    s, i := "", from;
    assert "" + Literal(chars[from..]).0 == Literal(chars[from..]).0;
    while i < |chars|
      invariant from <= i <= |chars|
      invariant Literal(chars[from..]) == (s + Literal(chars[i..]).0, Literal(chars[i..]).1)
      decreases |chars| - i
    {
      var here := chars[i..];
      assert here[1..] == chars[i + 1..];
      if chars[i] == '\\' {
        i := i + 1;
        if i < |chars| {
          assert here[2..] == chars[i + 1..];
          Assoc(s, [Unescaped(chars[i])], Literal(chars[i + 1..]).0);
          s := s + [Unescaped(chars[i])];
          i := i + 1;
        } else {
          assert chars[i..] == "";
        }
      } else if chars[i] == '"' {
        i := i + 1;
        assert s + "" == s;
        return;
      } else {
        Assoc(s, [chars[i]], Literal(chars[i + 1..]).0);
        s := s + [chars[i]];
        i := i + 1;
      }
    }
    assert chars[i..] == "";
    assert s + "" == s;
  }

  /** `extract_string_array`. */
  method ExtractStringArray(text: string) returns (out: seq<string>)
    ensures out == Strings(text)
  {
    hide IndexOf, Literal, Trim;
    out := [];
    var start := IndexOf(text, '[');
    if start == |text| {
      return;
    }
    var rest := text[start + 1..];
    var chars := rest[..IndexOf(rest, ']')];
    var i := 0;
    assert chars[0..] == chars;
    while i < |chars|
      invariant 0 <= i <= |chars|
      invariant Literals(chars) == out + Literals(chars[i..])
      decreases |chars| - i
    {
      var here := chars[i..];
      assert here[1..] == chars[i + 1..];
      if chars[i] == '"' {
        var s, next := ReadLiteral(chars, i + 1);
        Assoc(out, NonEmpty(Trim(s)), Literals(chars[next..]));
        if Trim(s) != "" {
          out := out + [Trim(s)];
        }
        i := next;
      } else {
        i := i + 1;
      }
    }
    assert chars[i..] == "";
    assert out + [] == out;
  }

  // ---- the round trip -----------------------------------------------------

  /** The inside of a JSON array of the given strings, with the given text before, between and behind them. */
  function Elements(cs: seq<string>, gaps: seq<string>): string
    requires |gaps| == |cs| + 1
  {
    if cs == [] then gaps[0] else gaps[0] + (Quote(cs[0]) + Elements(cs[1..], gaps[1..]))
  }

  /** What may stand between literals: commas, white space, and anything else that is neither `"` nor `]`. */
  predicate GapsOk(gaps: seq<string>) {
    forall i :: 0 <= i < |gaps| ==> '"' !in gaps[i] && ']' !in gaps[i]
  }

  predicate Control(c: char) { c as int < 0x20 && c != '\n' && c != '\r' && c != '\t' }

  /** What survives: no `]`, no control character that is written as a numeric escape, trimmed, not blank. */
  predicate Survives(s: string) {
    s != "" && Trimmed(s) && ']' !in s && forall c :: c in s ==> !Control(c)
  }

  predicate Readable(s: string) { ']' !in s && forall c :: c in s ==> !Control(c) }

  lemma EscapedCharIsRead(c: char, rest: string)
    requires !Control(c)
    ensures Literal(EscapeChar(c) + rest) == ([c] + Literal(rest).0, Literal(rest).1)
  {
    var s := EscapeChar(c) + rest;
    if s[0] == '\\' {
      assert s[2..] == rest;
    } else {
      assert s[1..] == rest;
    }
  }

  lemma {:induction false} EscapedIsRead(s: string, rest: string)
    requires forall c :: c in s ==> !Control(c)
    ensures Literal(Escape(s) + "\"" + rest) == (s, rest)
  {
    if s == "" {
      var t := Escape(s) + "\"" + rest;
      assert t[0] == '"' && t[1..] == rest;
    } else {
      var tail := Escape(s[1..]) + "\"" + rest;
      assert Escape(s) + "\"" + rest == EscapeChar(s[0]) + tail;
      EscapedCharIsRead(s[0], tail);
      EscapedIsRead(s[1..], rest);
      Uncons(s);
    }
  }

  lemma QuotedIsRead(s: string, m: string, rest: string)
    requires Readable(s) && Pads(s, m)
    ensures Literals(Quote(s) + rest) == (if m == "" then [] else [m]) + Literals(rest)
  {
    var t := Quote(s) + rest;
    assert t[0] == '"' && t[1..] == Escape(s) + "\"" + rest;
    EscapedIsRead(s, rest);
    TrimIff(s, m);
    hide Pads, Trim, Escape, Literal;
  }

  lemma {:induction false} GapIsSkipped(gap: string, rest: string)
    requires '"' !in gap
    ensures Literals(gap + rest) == Literals(rest)
  {
    hide Literal, Trim;
    if gap == "" {
      assert gap + rest == rest;
    } else {
      assert (gap + rest)[1..] == gap[1..] + rest;
      GapIsSkipped(gap[1..], rest);
    }
  }

  lemma {:induction false} ElementsAreRead(cs: seq<string>, ms: seq<string>, gaps: seq<string>)
    requires |gaps| == |cs| + 1 && GapsOk(gaps) && Padded(cs, ms)
    requires forall c :: c in cs ==> Readable(c)
    ensures Literals(Elements(cs, gaps)) == Filter(m => m != "", ms)
  {
    hide Readable, Quote, Literals, Padded, Pads;
    if cs == [] {
      assert ms == [] by { NothingPadded(ms); }
      NothingRead();
      GapIsSkipped(gaps[0], "");
      assert gaps[0] + "" == gaps[0];
    } else {
      var rest := Elements(cs[1..], gaps[1..]);
      PaddedRest(cs, ms);
      GapIsSkipped(gaps[0], Quote(cs[0]) + rest);
      QuotedIsRead(cs[0], ms[0], rest);
      ElementsAreRead(cs[1..], ms[1..], gaps[1..]);
    }
  }

  lemma NothingRead()
    ensures Literals("") == []
  {
  }

  // ---- what is never read -------------------------------------------------

  lemma {:induction false} LiteralChars(s: string)
    ensures forall c :: c in Literal(s).0 ==> c in s || c == '\n' || c == '\t' || c == '\r'
    ensures forall c :: c in Literal(s).1 ==> c in s
    decreases |s|
  {
    if s != "" {
      if s[0] == '\\' {
        if |s| > 1 {
          LiteralChars(s[2..]);
        }
      } else if s[0] != '"' {
        LiteralChars(s[1..]);
      }
    }
  }

  /** Every string read is trimmed, not blank, and made of characters of the text and unescaped breaks. */
  lemma {:induction false} LiteralsChars(s: string)
    ensures forall l, c :: l in Literals(s) && c in l ==> c in s || c == '\n' || c == '\t' || c == '\r'
    ensures forall l :: l in Literals(s) ==> l != "" && Trimmed(l)
    decreases |s|
  {
    hide Trim, Literal, Trimmed;
    if s != "" {
      if s[0] == '"' {
        LiteralChars(s[1..]);
        LiteralsChars(Literal(s[1..]).1);
      } else {
        LiteralsChars(s[1..]);
      }
    }
  }

  lemma {:induction false} EscapeAvoids(s: string)
    ensures ']' !in s ==> ']' !in Escape(s)
  {
    if s != "" {
      EscapeAvoids(s[1..]);
      EscapeCharAvoids(s[0]);
    }
  }

  lemma EscapeCharAvoids(c: char)
    ensures forall d :: d in EscapeChar(c) ==> d as int >= 0x20
    ensures c != ']' ==> ']' !in EscapeChar(c)
  {
    if c as int < 0x20 {
      var h, l := LOWER_HEX[c as int / 16], LOWER_HEX[c as int % 16];
      HexIsPlain(c as int / 16);
      HexIsPlain(c as int % 16);
    }
  }

  lemma HexIsPlain(n: nat)
    requires n < 16
    ensures LOWER_HEX[n] as int >= 0x20 && LOWER_HEX[n] != ']' && LOWER_HEX[n] != '"' && LOWER_HEX[n] != '\\'
  {
  }

  lemma {:induction false} ElementsAvoid(cs: seq<string>, gaps: seq<string>)
    requires |gaps| == |cs| + 1 && GapsOk(gaps)
    ensures (forall s :: s in cs ==> ']' !in s) ==> ']' !in Elements(cs, gaps)
  {
    if cs != [] {
      EscapeAvoids(cs[0]);
      ElementsAvoid(cs[1..], gaps[1..]);
    }
  }

  /** Whatever a text holds, what is read of its escape holds no control character but line breaks and tabs. */
  lemma EscapedCharGarbled(c: char, rest: string) returns (g: string)
    ensures Literal(EscapeChar(c) + rest) == (g + Literal(rest).0, Literal(rest).1)
    ensures forall d :: d in g ==> !Control(d)
  {
    if Control(c) {
      var h, l := LOWER_HEX[c as int / 16], LOWER_HEX[c as int % 16];
      g := ['u', '0', '0', h, l];
      HexIsPlain(c as int / 16);
      HexIsPlain(c as int % 16);
      assert EscapeChar(c) == ['\\', 'u', '0', '0', h, l];
      NumericIsRead(h, l, rest);
    } else {
      g := [c];
      EscapedCharIsRead(c, rest);
    }
  }

  lemma {:induction false} PlainIsRead(p: string, rest: string)
    requires '\\' !in p && '"' !in p
    ensures Literal(p + rest) == (p + Literal(rest).0, Literal(rest).1)
  {
    if p == "" {
      assert p + rest == rest && p + Literal(rest).0 == Literal(rest).0;
    } else {
      assert (p + rest)[1..] == p[1..] + rest;
      PlainIsRead(p[1..], rest);
      Uncons(p);
      Assoc([p[0]], p[1..], Literal(rest).0);
    }
  }

  lemma EscapeIsRead(c: char, tail: string)
    ensures Literal(['\\', c] + tail) == ([Unescaped(c)] + Literal(tail).0, Literal(tail).1)
  {
    assert (['\\', c] + tail)[2..] == tail;
  }

  lemma NumericIsRead(h: char, l: char, rest: string)
    requires h != '"' && h != '\\' && l != '"' && l != '\\'
    ensures Literal(['\\', 'u', '0', '0', h, l] + rest) == (['u', '0', '0', h, l] + Literal(rest).0, Literal(rest).1)
  {
    hide Literal;
    var p := ['0', '0', h, l];
    assert ['\\', 'u', '0', '0', h, l] + rest == ['\\', 'u'] + (p + rest);
    EscapeIsRead('u', p + rest);
    PlainIsRead(p, rest);
    Assoc(['u'], p, Literal(rest).0);
    assert ['u'] + p == ['u', '0', '0', h, l];
  }

  lemma {:induction false} EscapedGarbled(s: string, rest: string) returns (g: string)
    ensures Literal(Escape(s) + "\"" + rest) == (g, rest)
    ensures forall d :: d in g ==> !Control(d)
  {
    hide EscapeChar, Control;
    if s == "" {
      g := "";
      var t := Escape(s) + "\"" + rest;
      assert t[0] == '"' && t[1..] == rest;
    } else {
      var tail := Escape(s[1..]) + "\"" + rest;
      assert Escape(s) + "\"" + rest == EscapeChar(s[0]) + tail;
      hide Literal, Escape;
      var front := EscapedCharGarbled(s[0], tail);
      var back := EscapedGarbled(s[1..], rest);
      g := front + back;
    }
  }

  /** What is read of an array as it was written, in full. */
  lemma {:induction false} ElementsHoldNoControl(cs: seq<string>, gaps: seq<string>)
    requires |gaps| == |cs| + 1 && GapsOk(gaps)
    ensures forall l, d :: l in Literals(Elements(cs, gaps)) && d in l ==> !Control(d)
  {
    hide Control, Literals, Quote;
    if cs == [] {
      NothingRead();
      GapIsSkipped(gaps[0], "");
      assert gaps[0] + "" == gaps[0];
    } else {
      var rest := Elements(cs[1..], gaps[1..]);
      GapIsSkipped(gaps[0], Quote(cs[0]) + rest);
      QuotedGarbled(cs[0], rest);
      ElementsHoldNoControl(cs[1..], gaps[1..]);
    }
  }

  lemma QuotedGarbled(s: string, rest: string)
    ensures forall l, d :: l in Literals(Quote(s) + rest) && d in l ==> !Control(d) || l in Literals(rest)
  {
    var t := Quote(s) + rest;
    assert t[0] == '"' && t[1..] == Escape(s) + "\"" + rest;
    var g := EscapedGarbled(s, rest);
    hide Control, Literal, Escape, Trim;
    TrimmedPart(g);
    assert Literals(t) == NonEmpty(Trim(g)) + Literals(rest);
  }

  lemma TrimmedPart(s: string)
    ensures forall c :: c in Trim(s) ==> c in s
  {
  }

  lemma InnerOf(pre: string, body: string, post: string)
    requires '[' !in pre
    ensures ']' !in Inner(pre + "[" + body + "]" + post)
    ensures forall c :: c in Inner(pre + "[" + body + "]" + post) ==> c in body
    ensures ']' !in body ==> Inner(pre + "[" + body + "]" + post) == body
  {
    var text := pre + "[" + body + "]" + post;
    var rest := body + "]" + post;
    assert text == pre + ['['] + rest;
    IndexOfUnique(pre, '[', rest);
    assert text[|pre| + 1..] == rest;
    var i := IndexOf(rest, ']');
    assert forall j :: 0 <= j < i ==> rest[..i][j] == rest[j];
    assert rest[|body|] == ']';
    assert rest[..i] == body[..i];
    if ']' !in body {
      assert rest == body + [']'] + post;
      IndexOfUnique(body, ']', post);
      assert body[..|body|] == body;
    }
  }

  /**
   * What is read of a written array: the strings without the white space around them, blank ones left
   * out, in their order.
   */
  lemma StringsOfElements(pre: string, cs: seq<string>, ms: seq<string>, gaps: seq<string>, post: string)
    requires '[' !in pre && |gaps| == |cs| + 1 && GapsOk(gaps) && Padded(cs, ms)
    requires forall c :: c in cs ==> Readable(c)
    ensures Strings(pre + "[" + Elements(cs, gaps) + "]" + post) == Filter(m => m != "", ms)
  {
    InnerOf(pre, Elements(cs, gaps), post);
    ElementsAvoid(cs, gaps);
    ElementsAreRead(cs, ms, gaps);
    hide Elements, Inner, Literals, Padded;
  }

  /** Without a `[` nothing is read; without a `]` the array reaches to the end of the text. */
  lemma OpenArray(pre: string, body: string)
    requires '[' !in pre
    ensures Strings(pre) == []
    ensures ']' !in body ==> Strings(pre + "[" + body) == Literals(body)
  {
    NothingRead();
    IndexOfNone(pre, '[');
    var text := pre + "[" + body;
    assert text == pre + ['['] + body;
    IndexOfUnique(pre, '[', body);
    assert text[|pre| + 1..] == body;
    if ']' !in body {
      IndexOfNone(body, ']');
      assert body[..|body|] == body;
    }
    hide Literals, IndexOf;
  }

  /** A string that is never closed counts as well. */
  lemma OpenString(s: string, m: string)
    requires '\\' !in s && '"' !in s && Pads(s, m)
    ensures Literals("\"" + s) == if m == "" then [] else [m]
  {
    var t := "\"" + s;
    assert t[1..] == s;
    PlainIsRead(s, "");
    assert s + "" == s;
    TrimIff(s, m);
    NothingRead();
    hide Trim, Pads;
    assert NonEmpty(m) + [] == NonEmpty(m);
  }

  /** Inside a string a backslash makes a break or a tab of `n`, `r` and `t`, and takes any other character as it is. */
  lemma BackslashIsRead(c: char, tail: string)
    ensures Literal("\\n" + tail).0 == "\n" + Literal(tail).0 && Literal("\\t" + tail).0 == "\t" + Literal(tail).0
    ensures Literal("\\r" + tail).0 == "\r" + Literal(tail).0
    ensures c != 'n' && c != 't' && c != 'r' ==> Literal(['\\', c] + tail).0 == [c] + Literal(tail).0
    ensures Literal("\\") == ("", "")
  {
    hide Literal;
    EscapeIsRead('n', tail);
    EscapeIsRead('t', tail);
    EscapeIsRead('r', tail);
    EscapeIsRead(c, tail);
    LoneBackslash();
  }

  lemma LoneBackslash()
    ensures Literal("\\") == ("", "")
  {
  }

  lemma SurvivorsPadThemselves(cs: seq<string>)
    requires forall c :: c in cs ==> Survives(c)
    ensures Padded(cs, cs) && Filter(m => m != "", cs) == cs
  {
    FilterAll(m => m != "", cs);
    forall i | 0 <= i < |cs| ensures Pads(cs[i], cs[i]) {
      assert Survives(cs[i]);
      TrimIdentity(cs[i]);
      TrimIff(cs[i], cs[i]);
      hide Pads, Trim;
    }
  }

  /**
   * Reading undoes writing exactly when every string survives. A `]` ends the array early wherever it
   * stands, and a numeric escape is read as its letters.
   */
  lemma StringsOfElementsIff(pre: string, cs: seq<string>, gaps: seq<string>, post: string)
    requires '[' !in pre && |gaps| == |cs| + 1 && GapsOk(gaps)
    ensures Strings(pre + "[" + Elements(cs, gaps) + "]" + post) == cs <==> forall c :: c in cs ==> Survives(c)
  {
    var body := Elements(cs, gaps);
    var text := pre + "[" + body + "]" + post;
    InnerOf(pre, body, post);
    ElementsAvoid(cs, gaps);
    if forall c :: c in cs ==> Survives(c) {
      SurvivorsPadThemselves(cs);
      StringsOfElements(pre, cs, cs, gaps, post);
    }
    LiteralsChars(Inner(text));
    ElementsHoldNoControl(cs, gaps);
    hide Elements, Inner, Literals, Trimmed, Control, Padded;
    if Strings(text) == cs {
      NoBracketRead(Inner(text));
      assert forall s :: s in cs ==> ']' !in s;
      forall s | s in cs ensures Survives(s) {
        assert s in Literals(Inner(text));
      }
    }
  }

  lemma NoBracketRead(inner: string)
    requires ']' !in inner
    ensures forall l :: l in Literals(inner) ==> ']' !in l
  {
    LiteralsChars(inner);
  }
}

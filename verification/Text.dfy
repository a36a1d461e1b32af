/** The `str` operations the program relies on, on strings of Unicode scalar values. */
module Text {
  import opened Base

  // ---- search -------------------------------------------------------------

  predicate StartsWith(s: string, p: string) { p <= s }

  /** `str::find`: offset of the first occurrence of `p` in `s`, or `|s| + 1` when there is none. */
  function Find(s: string, p: string): (i: nat)
    ensures i <= |s| ==> i + |p| <= |s|
    ensures i <= |s| + 1
  {
    if StartsWith(s, p) then 0 else if s == "" then 1 else 1 + Find(s[1..], p)
  }

  lemma {:induction false} FindIsFirst(s: string, p: string)
    ensures var i := Find(s, p);
      && (i <= |s| ==> p <= s[i..])
      && forall j :: 0 <= j < i && j <= |s| ==> !(p <= s[j..])
  {
    if !StartsWith(s, p) && s != "" {
      FindIsFirst(s[1..], p);
      assert forall j :: 1 <= j <= |s| ==> s[j..] == s[1..][j - 1..];
    }
  }

  /** `str::replace`: left to right, non-overlapping. The pattern is never empty in the program. */
  function Replace(s: string, p: string, r: string): string
    requires p != ""
  {
    if s == "" then ""
    else if StartsWith(s, p) then r + Replace(s[|p|..], p, r)
    else [s[0]] + Replace(s[1..], p, r)
  }

  // ---- splitting ----------------------------------------------------------

  /** Offset of the first `c`, or `|s|`. */
  function IndexOf<T(==)>(s: seq<T>, c: T): (i: nat)
    ensures i <= |s|
    ensures i < |s| ==> s[i] == c
    ensures c !in s[..i]
  {
    if s == [] || s[0] == c then 0
    else
      var k := IndexOf(s[1..], c);
      assert s[..1 + k] == [s[0]] + s[1..][..k];
      1 + k
  }

  lemma IndexOfUnique<T>(s: seq<T>, c: T, rest: seq<T>)
    requires c !in s
    ensures IndexOf(s + [c] + rest, c) == |s|
  {
    var t := s + [c] + rest;
    var i := IndexOf(t, c);
    assert forall j :: 0 <= j < |s| ==> t[j] == s[j];
    forall j | 0 <= j < i ensures t[j] != c { assert t[j] == t[..i][j]; }
    assert t[|s|] == c;
  }

  lemma IndexOfFound<T>(s: seq<T>, c: T)
    requires c in s
    ensures IndexOf(s, c) < |s|
  {
    assert s[..|s|] == s;
  }

  lemma IndexOfNone<T>(s: seq<T>, c: T)
    requires c !in s
    ensures IndexOf(s, c) == |s|
  {
  }

  /** `str::split` on one character. */
  function Split(s: string, c: char): (r: seq<string>)
    ensures |r| >= 1
    decreases |s|
  {
    var i := IndexOf(s, c);
    if i == |s| then [s] else [s[..i]] + Split(s[i + 1..], c)
  }

  function Join(fields: seq<string>, c: char): string
    requires fields != []
  {
    if |fields| == 1 then fields[0] else fields[0] + [c] + Join(fields[1..], c)
  }

  lemma {:induction false} JoinAvoids(fields: seq<string>, c: char, d: char)
    requires fields != [] && c != d
    requires forall i :: 0 <= i < |fields| ==> d !in fields[i]
    ensures d !in Join(fields, c)
  {
    if |fields| > 1 {
      JoinAvoids(fields[1..], c, d);
    }
  }

  lemma {:induction false} JoinLast(fields: seq<string>, x: string, c: char)
    requires fields != []
    ensures Join(fields + [x], c) == Join(fields, c) + [c] + x
  {
    assert (fields + [x])[1..] == fields[1..] + [x];
    if |fields| > 1 {
      JoinLast(fields[1..], x, c);
      Assoc(fields[0] + [c], Join(fields[1..], c), [c]);
    } else {
      assert fields[1..] + [x] == [x];
    }
  }

  lemma JoinTwo(f: seq<string>, c: char)
    requires |f| > 2
    ensures Join(f, c) == f[0] + [c] + (f[1] + [c] + Join(f[2..], c))
  {
    assert f[1..][1..] == f[2..];
  }

  lemma JoinThree(f: seq<string>, c: char)
    requires |f| == 3
    ensures Join(f, c) == f[0] + [c] + (f[1] + [c] + f[2])
  {
    JoinTwo(f, c);
  }

  lemma SplitCons(head: string, c: char, rest: string)
    requires c !in head
    ensures Split(head + [c] + rest, c) == [head] + Split(rest, c)
  {
    var s := head + [c] + rest;
    IndexOfUnique(head, c, rest);
    assert s[..|head|] == head;
    assert s[|head| + 1..] == rest;
  }

  /** No piece of a split holds the separator, or anything the text does not. */
  lemma {:induction false} SplitPieces(s: string, c: char)
    ensures forall p, d :: p in Split(s, c) && d in p ==> d != c && d in s
    decreases |s|
  {
    var i := IndexOf(s, c);
    if i == |s| {
      assert s[..i] == s;
    } else {
      SplitPieces(s[i + 1..], c);
    }
  }

  lemma {:induction false} SplitJoin(fields: seq<string>, c: char)
    requires fields != []
    requires forall i :: 0 <= i < |fields| ==> c !in fields[i]
    ensures Split(Join(fields, c), c) == fields
  {
    if |fields| == 1 {
      IndexOfNone(fields[0], c);
    } else {
      SplitJoin(fields[1..], c);
      SplitCons(fields[0], c, Join(fields[1..], c));
    }
  }

  lemma PrefixAvoids<T>(p: seq<T>, s: seq<T>, c: T)
    requires p <= s && c !in s
    ensures c !in p
  {
    forall i | 0 <= i < |p| ensures p[i] != c { assert p[i] == s[i]; }
  }

  lemma PrefixBeyond<T>(p: seq<T>, f: seq<T>, rest: seq<T>)
    requires p <= f + rest && |f| <= |p|
    ensures p == f + p[|f|..] && p[|f|..] <= rest
  {
    var s := f + rest;
    assert forall i :: 0 <= i < |p| ==> p[i] == s[i];
  }

  lemma PrefixWithin<T>(p: seq<T>, f: seq<T>, rest: seq<T>)
    requires p <= f + rest && |p| <= |f|
    ensures p <= f
  {
    var s := f + rest;
    assert forall i :: 0 <= i < |p| ==> p[i] == s[i];
  }

  /** Whether `q` is a beginning of `fields` whose last field may be cut short. */
  predicate CutFields(q: seq<string>, fields: seq<string>) {
    && 1 <= |q| <= |fields|
    && q[..|q| - 1] == fields[..|q| - 1]
    && q[|q| - 1] <= fields[|q| - 1]
  }

  /** Splitting a prefix of joined fields gives a beginning of the fields, the last one cut short. */
  lemma {:induction false} SplitOfPrefix(fields: seq<string>, c: char, p: string)
    requires fields != []
    requires forall i :: 0 <= i < |fields| ==> c !in fields[i]
    requires p <= Join(fields, c)
    ensures CutFields(Split(p, c), fields)
  {
    var f := fields[0];
    if |fields| == 1 {
      SplitWithin(p, f, c, fields);
    } else {
      var rest := fields[1..];
      Assoc(f, [c], Join(rest, c));
      if |p| <= |f| {
        PrefixWithin(p, f, [c] + Join(rest, c));
        SplitWithin(p, f, c, fields);
      } else {
        var tail := BeyondFirst(p, f, c, Join(rest, c));
        SplitOfPrefix(rest, c, tail);
        SplitCons(f, c, tail);
        CutCons(Split(tail, c), rest, f);
        Uncons(fields);
      }
    }
  }

  lemma SplitWithin(p: string, f: string, c: char, fields: seq<string>)
    requires fields != [] && fields[0] == f && c !in f && p <= f
    ensures CutFields(Split(p, c), fields)
  {
    PrefixAvoids(p, f, c);
    IndexOfNone(p, c);
  }

  lemma BeyondFirst(p: string, f: string, c: char, joined: string) returns (tail: string)
    requires p <= f + ([c] + joined) && |p| > |f|
    ensures p == f + [c] + tail && tail <= joined
  {
    PrefixBeyond(p, f, [c] + joined);
    PrefixBeyond(p[|f|..], [c], joined);
    tail := p[|f|..][1..];
  }

  lemma CutCons(q: seq<string>, rest: seq<string>, f: string)
    requires CutFields(q, rest)
    ensures CutFields([f] + q, [f] + rest)
  {
    var n := |q|;
    assert ([f] + q)[..n] == [f] + q[..n - 1];
    assert ([f] + rest)[..n] == [f] + rest[..n - 1];
  }

  /** One more field than separators. */
  function Count(s: string, c: char): nat {
    if s == "" then 0 else (if s[0] == c then 1 else 0) + Count(s[1..], c)
  }

  lemma {:induction false} CountAppend(s: string, t: string, c: char)
    ensures Count(s + t, c) == Count(s, c) + Count(t, c)
  {
    if s == "" {
      assert s + t == t;
    } else {
      assert (s + t)[1..] == s[1..] + t;
      CountAppend(s[1..], t, c);
    }
  }

  lemma {:induction false} CountNone(s: string, c: char)
    requires c !in s
    ensures Count(s, c) == 0
  {
    if s != "" {
      CountNone(s[1..], c);
    }
  }

  lemma {:induction false} SplitCount(s: string, c: char)
    ensures |Split(s, c)| == Count(s, c) + 1
    decreases |s|
  {
    var i := IndexOf(s, c);
    if i == |s| {
      assert s[..i] == s;
      CountNone(s, c);
    } else {
      SplitCount(s[i + 1..], c);
      assert s == s[..i] + ([c] + s[i + 1..]);
      CountAppend(s[..i], [c] + s[i + 1..], c);
      CountNone(s[..i], c);
    }
  }

  // ---- trimming -----------------------------------------------------------

  /** The `White_Space` property of Unicode, which `str::trim` uses. */
  predicate IsWhitespace(c: char) {
    var n := c as int;
    || 9 <= n <= 13 || n == 32 || n == 0x85 || n == 0xA0 || n == 0x1680
    || 0x2000 <= n <= 0x200A || n == 0x2028 || n == 0x2029 || n == 0x202F
    || n == 0x205F || n == 0x3000
  }

  function TrimStart(s: string): (r: string)
    ensures r != "" ==> !IsWhitespace(r[0])
    ensures |r| <= |s|
    ensures r == s[|s| - |r|..]
  {
    if s != "" && IsWhitespace(s[0]) then TrimStart(s[1..]) else s
  }

  function TrimEnd(s: string): (r: string)
    ensures r != "" ==> !IsWhitespace(r[|r| - 1])
    ensures r <= s
  {
    if s != "" && IsWhitespace(s[|s| - 1]) then TrimEnd(s[..|s| - 1]) else s
  }

  /** `str::trim`. */
  function Trim(s: string): (r: string)
    ensures Trimmed(r)
    ensures forall c :: c in r ==> c in s
  {
    var a := TrimStart(s);
    var r := TrimEnd(a);
    assert r != "" ==> r[0] == a[0];
    r
  }

  /** No whitespace at either end. */
  predicate Trimmed(s: string) {
    s != "" ==> !IsWhitespace(s[0]) && !IsWhitespace(s[|s| - 1])
  }

  lemma TrimIdentity(s: string)
    requires Trimmed(s)
    ensures Trim(s) == s
  {
  }

  /** The 25 characters of that property, as `PropList.txt` of the Unicode Character Database lists them. */
  lemma WhiteSpaceList(c: char)
    ensures IsWhitespace(c) <==>
      c in "\t\n\U{0B}\U{0C}\r \U{85}\U{A0}\U{1680}\U{2000}\U{2001}\U{2002}\U{2003}\U{2004}\U{2005}\U{2006}\U{2007}"
        || c in "\U{2008}\U{2009}\U{200A}\U{2028}\U{2029}\U{202F}\U{205F}\U{3000}"
  {
    var a := "\t\n\U{0B}\U{0C}\r \U{85}\U{A0}\U{1680}\U{2000}\U{2001}\U{2002}\U{2003}\U{2004}\U{2005}\U{2006}\U{2007}";
    var b := "\U{2008}\U{2009}\U{200A}\U{2028}\U{2029}\U{202F}\U{205F}\U{3000}";
    var n := c as int;
    assert 9 <= n <= 13 ==> c == a[n - 9];
    assert 0x2000 <= n <= 0x2007 ==> c == a[9 + n - 0x2000];
    assert 0x2008 <= n <= 0x200A ==> c == b[n - 0x2008];
    assert a[5] == ' ' && a[6] == '\U{85}' && a[7] == '\U{A0}' && a[8] == '\U{1680}';
    assert b[3] == '\U{2028}' && b[4] == '\U{2029}' && b[5] == '\U{202F}' && b[6] == '\U{205F}' && b[7] == '\U{3000}';
  }

  predicate Blank(s: string) { forall i :: 0 <= i < |s| ==> IsWhitespace(s[i]) }

  /** Nothing but white space stands around the text, which starts and ends with something else. */
  ghost predicate Pads(s: string, m: string) {
    Trimmed(m) && exists a, b :: Blank(a) && Blank(b) && s == a + m + b
  }

  lemma {:induction false} TrimStartSkips(a: string, rest: string)
    requires Blank(a) && (rest != "" ==> !IsWhitespace(rest[0]))
    ensures TrimStart(a + rest) == rest
  {
    if a == "" {
      assert a + rest == rest;
    } else {
      assert (a + rest)[1..] == a[1..] + rest;
      TrimStartSkips(a[1..], rest);
    }
  }

  lemma {:induction false} TrimEndSkips(front: string, b: string)
    requires Blank(b) && (front != "" ==> !IsWhitespace(front[|front| - 1]))
    ensures TrimEnd(front + b) == front
  {
    if b == "" {
      assert front + b == front;
    } else {
      assert (front + b)[..|front + b| - 1] == front + b[..|b| - 1];
      TrimEndSkips(front, b[..|b| - 1]);
    }
  }

  lemma BlankAppend(a: string, b: string)
    requires Blank(a) && Blank(b)
    ensures Blank(a + b)
  {
  }

  /** Padding is what trimming takes away. */
  lemma TrimPadded(a: string, m: string, b: string)
    requires Blank(a) && Blank(b) && Trimmed(m)
    ensures Trim(a + m + b) == m
  {
    Assoc(a, m, b);
    if m == "" {
      BlankAppend(a, b);
      TrimStartSkips(a + b, "");
      assert a + b + "" == a + (m + b);
    } else {
      assert (m + b)[0] == m[0];
      TrimStartSkips(a, m + b);
      TrimEndSkips(m, b);
    }
  }

  lemma {:induction false} StartIsBlank(s: string, i: nat)
    requires i < |s| - |TrimStart(s)|
    ensures IsWhitespace(s[i])
  {
    if i > 0 {
      StartIsBlank(s[1..], i - 1);
    }
  }

  lemma {:induction false} EndIsBlank(s: string, i: nat)
    requires |TrimEnd(s)| <= i < |s|
    ensures IsWhitespace(s[i])
  {
    if i < |s| - 1 {
      EndIsBlank(s[..|s| - 1], i);
    }
  }

  lemma PadsAround(a: string, m: string, b: string)
    requires Blank(a) && Blank(b) && Trimmed(m)
    ensures Pads(a + m + b, m)
  {
  }

  lemma StartCut(s: string)
    ensures Blank(s[..|s| - |TrimStart(s)|])
  {
    forall i | 0 <= i < |s| - |TrimStart(s)| ensures IsWhitespace(s[i]) { StartIsBlank(s, i); }
  }

  lemma EndCut(s: string)
    ensures Blank(s[|TrimEnd(s)|..])
  {
    forall i | |TrimEnd(s)| <= i < |s| ensures IsWhitespace(s[i]) { EndIsBlank(s, i); }
  }

  lemma TrimIs(s: string)
    ensures Trim(s) == TrimEnd(TrimStart(s))
  {
  }

  lemma TrimCuts(s: string)
    ensures Pads(s, Trim(s))
  {
    hide *;
    TrimIs(s);
    var rest := TrimStart(s);
    var m := TrimEnd(rest);
    StartCut(s);
    EndCut(rest);
    var a, b := s[..|s| - |rest|], rest[|m|..];
    assert rest == m + b;
    assert s == a + rest;
    Assoc(a, m, b);
    PadsAround(a, m, b);
  }

  /** The trimmed text is the only one that the text pads. */
  lemma TrimIff(s: string, m: string)
    ensures Trim(s) == m <==> Pads(s, m)
  {
    TrimCuts(s);
    hide Trim;
    if Pads(s, m) {
      var a, b :| Blank(a) && Blank(b) && s == a + m + b;
      TrimPadded(a, m, b);
    }
  }

  /** White space around each string aside, the first list holds the second. */
  ghost predicate Padded(cs: seq<string>, ms: seq<string>) {
    |cs| == |ms| && forall i :: 0 <= i < |cs| ==> Pads(cs[i], ms[i])
  }

  lemma PaddedRest(cs: seq<string>, ms: seq<string>)
    requires Padded(cs, ms) && cs != []
    ensures ms != [] && Pads(cs[0], ms[0]) && Padded(cs[1..], ms[1..])
  {
    hide Pads;
  }

  lemma NothingPadded(ms: seq<string>)
    requires Padded([], ms)
    ensures ms == []
  {
  }

  // ---- lines --------------------------------------------------------------

  function DropCr(s: string): string {
    if s != "" && s[|s| - 1] == '\r' then s[..|s| - 1] else s
  }

  /** `str::lines`: a `\n` or `\r\n` ends a line; the last line may be unterminated. */
  function Lines(s: string): seq<string>
    decreases |s|
  {
    if s == "" then []
    else
      var i := IndexOf(s, '\n');
      if i == |s| then [s] else [DropCr(s[..i])] + Lines(s[i + 1..])
  }

  /** One carriage return before a newline belongs to the end of the line. */
  lemma CrLfEndsLine(l: string, rest: string)
    requires '\n' !in l
    ensures Lines(l + "\r\n" + rest) == [l] + Lines(rest)
  {
    EndOfLine(l + "\r", rest);
    hide Lines;
    assert (l + "\r")[..|l|] == l;
    assert l + "\r" + "\n" + rest == l + "\r\n" + rest;
  }

  /** The last line, if unterminated, is taken as it is, a carriage return included. */
  lemma LastLine(l: string)
    requires l != "" && '\n' !in l
    ensures Lines(l) == [l]
  {
    IndexOfNone(l, '\n');
  }

  lemma EndOfLine(l: string, rest: string)
    requires '\n' !in l
    ensures Lines(l + "\n" + rest) == [DropCr(l)] + Lines(rest)
  {
    var s := l + "\n" + rest;
    IndexOfUnique(l, '\n', rest);
    assert s == l + ['\n'] + rest;
    assert s[..|l|] == l;
    assert s[|l| + 1..] == rest;
  }

  /** Each line followed by a newline. */
  function Unlines(ls: seq<string>): string {
    if ls == [] then "" else ls[0] + "\n" + Unlines(ls[1..])
  }

  predicate IsLine(l: string) {
    '\n' !in l && (l != "" ==> l[|l| - 1] != '\r')
  }

  lemma LinesCons(l: string, rest: string)
    requires IsLine(l)
    ensures Lines(l + "\n" + rest) == [l] + Lines(rest)
  {
    var s := l + "\n" + rest;
    IndexOfUnique(l, '\n', rest);
    assert s == l + ['\n'] + rest;
    assert s[..|l|] == l;
    assert s[|l| + 1..] == rest;
  }

  lemma {:induction false} LinesHoldNoBreak(s: string)
    ensures forall l :: l in Lines(s) ==> '\n' !in l
    decreases |s|
  {
    if s != "" {
      var i := IndexOf(s, '\n');
      if i < |s| {
        LinesHoldNoBreak(s[i + 1..]);
      } else {
        assert s[..i] == s;
      }
    }
  }

  lemma {:induction false} LinesUnlines(ls: seq<string>)
    requires forall i :: 0 <= i < |ls| ==> IsLine(ls[i])
    ensures Lines(Unlines(ls)) == ls
  {
    if ls != [] {
      LinesUnlines(ls[1..]);
      LinesCons(ls[0], Unlines(ls[1..]));
    }
  }

  lemma {:induction false} UnlinesAppend(a: seq<string>, b: seq<string>)
    ensures Unlines(a + b) == Unlines(a) + Unlines(b)
  {
    if a == [] {
      assert a + b == b;
    } else {
      assert (a + b)[1..] == a[1..] + b;
      UnlinesAppend(a[1..], b);
    }
  }

  // ---- decimal numbers ----------------------------------------------------

  predicate IsDigit(c: char) { '0' <= c <= '9' }

  predicate AllDigits(s: string) { forall i :: 0 <= i < |s| ==> IsDigit(s[i]) }

  function Digit(n: nat): (c: char)
    requires n < 10
    ensures IsDigit(c) && c as int == 48 + n
  {
    (48 + n) as char
  }

  function DigitVal(c: char): (n: nat)
    ensures IsDigit(c) ==> n < 10 && n == c as int - 48
  {
    if IsDigit(c) then c as int - 48 else 0
  }

  /** The decimal rendering of an unsigned integer. */
  function Dec(n: nat): (s: string)
    ensures s != "" && AllDigits(s)
    ensures n > 0 ==> s[0] != '0'
  {
    if n < 10 then [Digit(n)] else Dec(n / 10) + [Digit(n % 10)]
  }

  function Val(s: string): nat {
    if s == "" then 0 else 10 * Val(s[..|s| - 1]) + DigitVal(s[|s| - 1])
  }

  lemma {:induction false} ValDec(n: nat)
    ensures Val(Dec(n)) == n
  {
    if n >= 10 {
      ValDec(n / 10);
      assert Dec(n)[..|Dec(n)| - 1] == Dec(n / 10);
    } else {
      assert Dec(n)[..0] == "";
    }
  }

  /** `str::parse` for an unsigned type with the given bound: an optional `+`, then digits. */
  function ParseUint(s: string, bound: nat): (r: Option<nat>)
    ensures r.Some? ==> r.value < bound
  {
    var d := if s != "" && s[0] == '+' then s[1..] else s;
    if d == "" || !AllDigits(d) || Val(d) >= bound then None else Some(Val(d))
  }

  lemma TrimDec(n: nat)
    ensures Trim(Dec(n)) == Dec(n)
  {
    var d := Dec(n);
    hide Dec;
    assert IsDigit(d[0]) && IsDigit(d[|d| - 1]);
    TrimIdentity(d);
  }

  lemma ParseDec(n: nat, bound: nat)
    requires n < bound
    ensures ParseUint(Dec(n), bound) == Some(n)
  {
    ValDec(n);
  }

  /** A plus sign is accepted; any other character beside digits, and a number out of range, is not. */
  lemma ParseUintMeaning(s: string, bound: nat, n: nat)
    requires n < bound
    ensures ParseUint("+" + Dec(n), bound) == Some(n) && ParseUint("", bound) == None
    ensures ParseUint(Dec(bound), bound) == None
    ensures (exists i :: 0 <= i < |s| && !IsDigit(s[i]) && (i > 0 || s[i] != '+')) ==> ParseUint(s, bound) == None
  {
    ValDec(n);
    ValDec(bound);
    assert ("+" + Dec(n))[1..] == Dec(n);
    assert Dec(bound)[0] != '+';
    hide Dec, Val;
    if i :| 0 <= i < |s| && !IsDigit(s[i]) && (i > 0 || s[i] != '+') {
      if s[0] == '+' {
        assert s[1..][i - 1] == s[i];
      }
    }
  }

  lemma {:induction false} ValMonotone(f: string, d: string)
    requires Val(f) >= 1
    ensures Val(f + d) > Val(d)
  {
    if d == "" {
      assert f + d == f;
    } else {
      var d' := d[..|d| - 1];
      ValMonotone(f, d');
      assert (f + d)[..|f + d| - 1] == f + d';
    }
  }

  lemma {:induction false} ValPositive(s: string)
    requires s != "" && AllDigits(s) && s[0] != '0'
    ensures Val(s) >= 1
  {
    if |s| > 1 {
      ValPositive(s[..|s| - 1]);
    }
  }
}

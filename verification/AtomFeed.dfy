/** What the scanner makes of a feed that was written tag by tag, as the hub writes it. */
module AtomFeed {
  import opened Atom
  import opened Base
  import opened Text

  /** A tag, with the text up to the next tag. The name is everything between the brackets. */
  datatype Tok = Tok(name: string, text: string)

  predicate TokOk(t: Tok) { '<' !in t.name && '>' !in t.name && '<' !in t.text }

  ghost predicate ToksOk(ts: seq<Tok>) { forall i :: 0 <= i < |ts| ==> TokOk(ts[i]) }

  function Show(t: Tok): string { Open(t.name) + t.text }

  function Render(ts: seq<Tok>): string { if ts == [] then "" else Show(ts[0]) + Render(ts[1..]) }

  lemma {:induction false} RenderAppend(a: seq<Tok>, b: seq<Tok>)
    ensures Render(a + b) == Render(a) + Render(b)
  {
    if a == [] {
      assert a + b == b;
    } else {
      assert (a + b)[1..] == a[1..] + b;
      RenderAppend(a[1..], b);
      Assoc(Show(a[0]), Render(a[1..]), Render(b));
    }
  }

  // ---- searching for a tag ------------------------------------------------

  /** A search pattern that can only match at the start of a tag. */
  predicate TagPattern(p: string) { p != "" && p[0] == '<' && '<' !in p[1..] }

  /** Text without `<` is skipped. */
  lemma {:induction false} FindSkip(a: string, rest: string, p: string)
    requires TagPattern(p) && '<' !in a
    ensures Find(a + rest, p) == |a| + Find(rest, p)
  {
    if a == "" {
      assert a + rest == rest;
    } else {
      assert (a + rest)[1..] == a[1..] + rest;
      assert (a + rest)[0] == a[0] && a[0] != '<';
      FindSkip(a[1..], rest, p);
    }
  }

  ghost predicate StartsTag(s: string) { s == "" || s[0] == '<' }

  lemma RenderStartsTag(ts: seq<Tok>)
    ensures StartsTag(Render(ts))
  {
  }

  lemma ReachesNextTag(c: string, rest: string, p: string)
    requires c != "" && p <= c + rest && |p| > |c| && StartsTag(rest)
    ensures '<' in p[1..]
  {
    assert p[|c|] == (c + rest)[|c|] == '<';
    assert p[1..][|c| - 1] == '<';
  }

  lemma PrefixExtends<T>(p: seq<T>, c: seq<T>, rest: seq<T>)
    requires p <= c
    ensures p <= c + rest
  {
  }

  /** A tag pattern cannot reach beyond one tag. */
  lemma PatternWithin(t: Tok, rest: string, p: string)
    requires TagPattern(p) && StartsTag(rest)
    ensures p <= Show(t) + rest <==> p <= Show(t)
  {
    var c := Show(t);
    if p <= c {
      PrefixExtends(p, c, rest);
    } else if p <= c + rest {
      if |p| <= |c| {
        PrefixWithin(p, c, rest);
      } else {
        ReachesNextTag(c, rest, p);
      }
    }
  }

  /** Index of the first tag that starts with `p`, or the number of tags. */
  function FirstTag(ts: seq<Tok>, p: string): (k: nat)
    ensures k <= |ts|
    ensures k < |ts| ==> p <= Show(ts[k])
  {
    if ts == [] || p <= Show(ts[0]) then 0 else 1 + FirstTag(ts[1..], p)
  }

  lemma {:induction false} FindTag(ts: seq<Tok>, p: string)
    requires ToksOk(ts) && TagPattern(p)
    ensures var k := FirstTag(ts, p);
      if k < |ts| then Find(Render(ts), p) == |Render(ts[..k])| else Find(Render(ts), p) > |Render(ts)|
    decreases |ts|
  {
    if ts != [] {
      var rest := Render(ts[1..]);
      RenderStartsTag(ts[1..]);
      PatternWithin(ts[0], rest, p);
      if p <= Show(ts[0]) {
        assert ts[..0] == [];
        FindAtFront(Render(ts), p);
      } else {
        FindTag(ts[1..], p);
        FindBeyond(ts[0], rest, p);
        RenderFront(ts, FirstTag(ts, p));
      }
    }
    hide Find, Show;
  }

  lemma FindAtFront(s: string, p: string)
    requires p <= s
    ensures Find(s, p) == 0
  {
  }

  lemma RenderFront(ts: seq<Tok>, k: nat)
    requires 1 <= k <= |ts|
    ensures Render(ts[..k]) == Show(ts[0]) + Render(ts[1..][..k - 1])
  {
    assert ts[..k][1..] == ts[1..][..k - 1];
  }

  lemma FindBeyond(t: Tok, rest: string, p: string)
    requires TokOk(t) && TagPattern(p) && StartsTag(rest) && !(p <= Show(t))
    ensures Find(Show(t) + rest, p) == |Show(t)| + Find(rest, p)
  {
    PatternWithin(t, rest, p);
    var c := Show(t);
    assert c[0] == '<';
    assert c == "<" + (t.name + ">" + t.text);
    assert (c + rest)[1..] == t.name + ">" + t.text + rest;
    FindSkip(t.name + ">" + t.text, rest, p);
  }

  // ---- tags are told apart by their names ---------------------------------

  lemma OpenPattern(name: string)
    requires '<' !in name
    ensures TagPattern(Open(name))
  {
    assert Open(name)[1..] == name + ">";
  }

  /** A tag starts with an opening bracket pair exactly when its name is that name. */
  lemma NameMatches(name: string, t: Tok)
    requires '>' !in name && '>' !in t.name
    ensures Open(name) <= Show(t) <==> name == t.name
  {
    var p, s := Open(name), Show(t);
    if p <= s {
      var rest := s[|p|..];
      assert s == p + rest;
      assert s[1..] == name + ['>'] + rest;
      assert s[1..] == t.name + ['>'] + t.text;
      IndexOfUnique(name, '>', rest);
      IndexOfUnique(t.name, '>', t.text);
      assert name == s[1..][..|name|] && t.name == s[1..][..|name|];
    }
  }

  function FirstNamed(ts: seq<Tok>, name: string): (k: nat)
    ensures k <= |ts|
    ensures k < |ts| ==> ts[k].name == name
    ensures forall i :: 0 <= i < k ==> ts[i].name != name
  {
    if ts == [] || ts[0].name == name then 0 else 1 + FirstNamed(ts[1..], name)
  }

  lemma {:induction false} FirstTagIsFirstNamed(ts: seq<Tok>, name: string)
    requires ToksOk(ts) && '>' !in name
    ensures FirstTag(ts, Open(name)) == FirstNamed(ts, name)
  {
    if ts != [] {
      NameMatches(name, ts[0]);
      FirstTagIsFirstNamed(ts[1..], name);
    }
  }

  predicate PlainName(name: string) { '<' !in name && '>' !in name }

  lemma FirstNamedIs(ts: seq<Tok>, name: string, k: nat)
    requires k < |ts| && ts[k].name == name && forall i :: 0 <= i < k ==> ts[i].name != name
    ensures FirstNamed(ts, name) == k
  {
  }

  /** `tag` on one name: the text of the first such tag, when its closing tag follows. */
  lemma BetweenTags(lead: string, ts: seq<Tok>, name: string, k: nat)
    requires '<' !in lead && ToksOk(ts) && PlainName(name)
    requires k + 1 < |ts| && ts[k].name == name && ts[k + 1].name == "/" + name
    requires forall i :: 0 <= i < k ==> ts[i].name != name
    ensures Between(lead + Render(ts), Open(name), Close(name)) == Some(ts[k].text)
  {
    hide Find, Render, FirstTag, FirstNamed, Between, Open, Close, Show;
    var s, p, text, after := lead + Render(ts), Open(name), ts[k].text, Render(ts[k + 1..]);
    FindOpen(lead, ts, name, k);
    BehindOpen(lead, ts, name, k);
    CloseAtFront(text, ts[k + 1..], name);
    BetweenIs(s, |lead| + |Render(ts[..k])|, p, text + after, |text|, Close(name));
    assert (text + after)[..|text|] == text;
  }

  lemma FindOpen(lead: string, ts: seq<Tok>, name: string, k: nat)
    requires '<' !in lead && ToksOk(ts) && PlainName(name)
    requires k < |ts| && ts[k].name == name && forall i :: 0 <= i < k ==> ts[i].name != name
    ensures Find(lead + Render(ts), Open(name)) == |lead| + |Render(ts[..k])|
  {
    OpenPattern(name);
    FindSkip(lead, Render(ts), Open(name));
    FirstTagIsFirstNamed(ts, name);
    FirstNamedIs(ts, name, k);
    FindTag(ts, Open(name));
    hide Find, Render, FirstTag, FirstNamed, Open;
  }

  lemma BehindOpen(lead: string, ts: seq<Tok>, name: string, k: nat)
    requires k < |ts| && ts[k].name == name
    ensures var s, i := lead + Render(ts), |lead| + |Render(ts[..k])|;
      i + |Open(name)| <= |s| && s[i + |Open(name)|..] == ts[k].text + Render(ts[k + 1..])
  {
    SplitAt(ts, k);
    ShowIs(ts[k]);
    BehindTag(lead, Render(ts[..k]), Open(name), ts[k].text, Render(ts[k + 1..]));
    hide Render, Open, Show;
  }

  lemma ShowIs(t: Tok)
    ensures Show(t) == Open(t.name) + t.text
  {
  }

  lemma BehindTag(lead: string, before: string, p: string, text: string, after: string)
    ensures var s := lead + (before + (p + text + after));
      var i := |lead| + |before|;
      i + |p| <= |s| && s[i + |p|..] == text + after
  {
    var s := lead + (before + (p + text + after));
    assert s == (lead + before + p) + (text + after);
  }

  lemma BetweenIs(s: string, i: nat, p: string, rest: string, j: nat, e: string)
    requires Find(s, p) == i && i + |p| <= |s| && s[i + |p|..] == rest
    requires Find(rest, e) == j && j <= |rest|
    ensures Between(s, p, e) == Some(rest[..j])
  {
    hide Find;
  }

  lemma SplitAt(ts: seq<Tok>, k: nat)
    requires k < |ts|
    ensures Render(ts) == Render(ts[..k]) + (Show(ts[k]) + Render(ts[k + 1..]))
  {
    assert ts == ts[..k] + ts[k..];
    RenderAppend(ts[..k], ts[k..]);
    assert ts[k..][1..] == ts[k + 1..];
  }

  lemma CloseAtFront(text: string, ts: seq<Tok>, name: string)
    requires '<' !in text && PlainName(name) && ts != [] && ts[0].name == "/" + name
    ensures Find(text + Render(ts), Close(name)) == |text|
  {
    hide Find;
    var p := Close(name);
    CloseIsOpen(name);
    OpenPattern("/" + name);
    FindSkip(text, Render(ts), p);
    ShowIs(ts[0]);
    PrefixExtends(p, Open("/" + name), ts[0].text);
    PrefixExtends(p, Show(ts[0]), Render(ts[1..]));
    FindAtFront(Render(ts), p);
    hide Open, Close, Show;
  }

  lemma CloseIsOpen(name: string)
    requires '<' !in name
    ensures Close(name) == Open("/" + name) && '<' !in "/" + name
  {
  }

  lemma NotBetween(lead: string, ts: seq<Tok>, name: string)
    requires '<' !in lead && ToksOk(ts) && PlainName(name)
    requires forall i :: 0 <= i < |ts| ==> ts[i].name != name
    ensures Between(lead + Render(ts), Open(name), Close(name)) == None
  {
    OpenPattern(name);
    FindSkip(lead, Render(ts), Open(name));
    FirstTagIsFirstNamed(ts, name);
    var k := FirstNamed(ts, name);
    FindTag(ts, Open(name));
  }
}

/** The entity decoder of `src/atom.rs`: six `replace` passes, the ampersand last. */
module Entities {
  import opened Base
  import opened Text

  /** An entity and the character it stands for. */
  datatype Rule = Rule(pat: string, rep: char)

  const LT: Rule := Rule("&lt;", '<')
  const GT: Rule := Rule("&gt;", '>')
  const QUOT: Rule := Rule("&quot;", '"')
  const NUM: Rule := Rule("&#39;", '\'')
  const APOS: Rule := Rule("&apos;", '\'')
  const AMP: Rule := Rule("&amp;", '&')

  /** `decode_entities`. */
  function DecodeEntities(s: string): string {
    Replace(Replace(Replace(Replace(Replace(Replace(s,
      "&lt;", "<"), "&gt;", ">"), "&quot;", "\""), "&#39;", "'"), "&apos;", "'"), "&amp;", "&")
  }

  // ---- a single-pass decoder ----------------------------------------------

  /** The first rule whose entity starts the text. */
  function Match(rules: seq<Rule>, s: string): (r: Option<Rule>)
    ensures r.Some? ==> r.value in rules && StartsWith(s, r.value.pat)
    ensures r.None? ==> forall i :: 0 <= i < |rules| ==> !StartsWith(s, rules[i].pat)
  {
    if rules == [] then None
    else if StartsWith(s, rules[0].pat) then Some(rules[0])
    else Match(rules[1..], s)
  }

  ghost predicate NonEmpty(rules: seq<Rule>) { forall i :: 0 <= i < |rules| ==> rules[i].pat != "" }

  /** Left to right, once: an entity becomes its character and is never looked at again. */
  function OnePass(rules: seq<Rule>, s: string): string
    requires NonEmpty(rules)
    decreases |s|
  {
    if s == "" then ""
    else match Match(rules, s)
      case Some(r) => [r.rep] + OnePass(rules, s[|r.pat|..])
      case None => [s[0]] + OnePass(rules, s[1..])
  }

  // ---- one more pass is one more rule -------------------------------------

  /** An entity: an ampersand, then characters that are not ampersands. */
  predicate IsEntity(p: string) { p != "" && p[0] == '&' && '&' !in p[1..] }

  /** What earlier passes produce can never be part of the next entity, nor can their entities overlap it. */
  ghost predicate Independent(rules: seq<Rule>, pat: string) {
    IsEntity(pat) && forall i :: 0 <= i < |rules| ==> Apart(rules[i], pat)
  }

  predicate Apart(r: Rule, pat: string) {
    IsEntity(r.pat) && r.rep !in pat && !(r.pat <= pat) && !(pat <= r.pat)
  }

  lemma PrefixesCompare(a: string, b: string, s: string)
    requires a <= s && b <= s
    ensures a <= b || b <= a
  {
  }

  /** Text without an ampersand passes through the decoder untouched. */
  lemma {:induction false} PlainPrefix(rules: seq<Rule>, p: string, rest: string)
    requires NonEmpty(rules) && (forall i :: 0 <= i < |rules| ==> IsEntity(rules[i].pat)) && '&' !in p
    ensures OnePass(rules, p + rest) == p + OnePass(rules, rest)
  {
    if p == "" {
      assert p + rest == rest;
    } else {
      var s := p + rest;
      assert s[0] == p[0] && s[0] != '&';
      assert s[1..] == p[1..] + rest;
      PlainPrefix(rules, p[1..], rest);
      NoMatch(rules, s);
    }
  }

  lemma NoMatch(rules: seq<Rule>, s: string)
    requires s != "" && s[0] != '&' && forall i :: 0 <= i < |rules| ==> IsEntity(rules[i].pat)
    ensures Match(rules, s) == None
  {
  }

  /** If the decoded text starts with plain characters no rule produces, so did the text. */
  lemma {:induction false} PlainBack(rules: seq<Rule>, u: string, tail: string)
    requires NonEmpty(rules) && '&' !in tail
    requires forall i :: 0 <= i < |rules| ==> rules[i].rep !in tail && IsEntity(rules[i].pat)
    requires tail <= OnePass(rules, u)
    ensures tail <= u
    decreases |tail|
  {
    if tail != "" {
      if Match(rules, u).None? {
        assert OnePass(rules, u) == [u[0]] + OnePass(rules, u[1..]);
        assert tail[1..] <= OnePass(rules, u[1..]);
        PlainBack(rules, u[1..], tail[1..]);
      } else {
        ProducedHead(rules, u);
      }
    }
  }

  lemma ProducedHead(rules: seq<Rule>, u: string)
    requires NonEmpty(rules) && Match(rules, u).Some? && u != ""
    ensures OnePass(rules, u) != "" && exists i :: 0 <= i < |rules| && rules[i].rep == OnePass(rules, u)[0]
  {
    var r := Match(rules, u).value;
    var i :| 0 <= i < |rules| && rules[i] == r;
    assert OnePass(rules, u)[0] == rules[i].rep;
  }

  /** An entity in the decoded text, where no rule matched, was already there. */
  lemma EntityBack(rules: seq<Rule>, pat: string, s: string)
    requires NonEmpty(rules) && Independent(rules, pat) && s != "" && Match(rules, s).None?
    requires pat <= OnePass(rules, s)
    ensures pat <= s
  {
    var tail := pat[1..];
    assert OnePass(rules, s) == [s[0]] + OnePass(rules, s[1..]);
    assert pat == [s[0]] + tail;
    assert tail <= OnePass(rules, s[1..]);
    assert forall i :: 0 <= i < |rules| ==> rules[i].rep !in tail;
    PlainBack(rules, s[1..], tail);
  }

  lemma MatchExtended(rules: seq<Rule>, rule: Rule, s: string)
    ensures Match(rules + [rule], s) ==
      if Match(rules, s).Some? then Match(rules, s)
      else if StartsWith(s, rule.pat) then Some(rule) else None
  {
    if rules != [] {
      assert (rules + [rule])[1..] == rules[1..] + [rule];
      MatchExtended(rules[1..], rule, s);
    } else {
      assert rules + [rule] == [rule];
      assert [rule][1..] == [];
    }
  }

  /** Replacing one more entity after a single-pass decoder is a single pass with one more rule. */
  lemma {:induction false} OneMorePass(rules: seq<Rule>, rule: Rule, s: string)
    requires NonEmpty(rules) && Independent(rules, rule.pat)
    ensures Replace(OnePass(rules, s), rule.pat, [rule.rep]) == OnePass(rules + [rule], s)
    decreases |s|
  {
    if s != "" {
      MatchExtended(rules, rule, s);
      if Match(rules, s).Some? {
        MatchedCase(rules, rule, s);
      } else if StartsWith(s, rule.pat) {
        NewRuleCase(rules, rule, s);
      } else {
        PlainCase(rules, rule, s);
      }
    }
  }

  lemma {:induction false} MatchedCase(rules: seq<Rule>, rule: Rule, s: string)
    requires NonEmpty(rules) && Independent(rules, rule.pat)
    requires s != "" && Match(rules, s).Some?
    requires Match(rules + [rule], s) == Match(rules, s)
    ensures Replace(OnePass(rules, s), rule.pat, [rule.rep]) == OnePass(rules + [rule], s)
    decreases |s|, 0
  {
    var r := Match(rules, s).value;
    var rest := s[|r.pat|..];
    OneMorePass(rules, rule, rest);
    var d := OnePass(rules, s);
    assert d == [r.rep] + OnePass(rules, rest);
    assert d[1..] == OnePass(rules, rest);
    assert d[0] == r.rep && r.rep != rule.pat[0];
  }

  lemma {:induction false} NewRuleCase(rules: seq<Rule>, rule: Rule, s: string)
    requires NonEmpty(rules) && Independent(rules, rule.pat)
    requires s != "" && Match(rules, s).None? && rule.pat <= s
    requires Match(rules + [rule], s) == Some(rule)
    ensures Replace(OnePass(rules, s), rule.pat, [rule.rep]) == OnePass(rules + [rule], s)
    decreases |s|, 0
  {
    var p := rule.pat;
    var rest := s[|p|..];
    OneMorePass(rules, rule, rest);
    EntityPasses(rules, p, rest);
    assert s == p + rest;
    ReplaceAtStart(p, OnePass(rules, rest), [rule.rep]);
  }

  /** An entity none of the rules knows passes through unchanged. */
  lemma EntityPasses(rules: seq<Rule>, p: string, rest: string)
    requires NonEmpty(rules) && Independent(rules, p) && Match(rules, p + rest).None?
    ensures OnePass(rules, p + rest) == p + OnePass(rules, rest)
  {
    var s := p + rest;
    assert s[1..] == p[1..] + rest;
    PlainPrefix(rules, p[1..], rest);
    Assoc([p[0]], p[1..], OnePass(rules, rest));
    assert p == [p[0]] + p[1..];
  }

  lemma ReplaceAtStart(p: string, rest: string, r: string)
    requires p != ""
    ensures Replace(p + rest, p, r) == r + Replace(rest, p, r)
  {
    assert (p + rest)[|p|..] == rest;
  }

  lemma {:induction false} PlainCase(rules: seq<Rule>, rule: Rule, s: string)
    requires NonEmpty(rules) && Independent(rules, rule.pat)
    requires s != "" && Match(rules, s).None? && !(rule.pat <= s)
    requires Match(rules + [rule], s) == None
    ensures Replace(OnePass(rules, s), rule.pat, [rule.rep]) == OnePass(rules + [rule], s)
    decreases |s|, 0
  {
    OneMorePass(rules, rule, s[1..]);
    var d := OnePass(rules, s);
    assert d == [s[0]] + OnePass(rules, s[1..]);
    assert d[1..] == OnePass(rules, s[1..]);
    if rule.pat <= d {
      EntityBack(rules, rule.pat, s);
    }
  }

  // ---- the six passes -----------------------------------------------------

  const RULES: seq<Rule> := [LT, GT, QUOT, NUM, APOS, AMP]

  /** An entity told apart by its second and third characters, and free of what the rules produce. */
  predicate Shaped(p: string, a: char, b: char) {
    && IsEntity(p) && |p| >= 3 && p[1] == a && p[2] == b
    && '<' !in p && '>' !in p && '"' !in p && '\'' !in p
  }

  lemma Shapes()
    ensures Shaped("&lt;", 'l', 't') && Shaped("&gt;", 'g', 't') && Shaped("&quot;", 'q', 'u')
    ensures Shaped("&#39;", '#', '3') && Shaped("&apos;", 'a', 'p') && Shaped("&amp;", 'a', 'm')
  {
    FirstShapes();
    LastShapes();
    hide Shaped;
  }

  lemma FirstShapes()
    ensures Shaped("&lt;", 'l', 't') && Shaped("&gt;", 'g', 't') && Shaped("&amp;", 'a', 'm')
  {
  }

  lemma LastShapes()
    ensures Shaped("&quot;", 'q', 'u') && Shaped("&#39;", '#', '3') && Shaped("&apos;", 'a', 'p')
  {
  }

  lemma ApartByShape(r: Rule, a: char, b: char, p: string, c: char, d: char)
    requires Shaped(r.pat, a, b) && Shaped(p, c, d) && (a != c || b != d)
    requires r.rep in {'<', '>', '"', '\''}
    ensures Apart(r, p)
  {
  }

  lemma EntityShapes()
    ensures IsEntity(LT.pat) && IsEntity(GT.pat) && IsEntity(QUOT.pat)
    ensures IsEntity(NUM.pat) && IsEntity(APOS.pat) && IsEntity(AMP.pat)
  {
    Shapes();
  }

  lemma PairsApart()
    ensures Apart(LT, GT.pat) && Apart(LT, QUOT.pat) && Apart(LT, NUM.pat) && Apart(LT, APOS.pat) && Apart(LT, AMP.pat)
    ensures Apart(GT, QUOT.pat) && Apart(GT, NUM.pat) && Apart(GT, APOS.pat) && Apart(GT, AMP.pat)
    ensures Apart(QUOT, NUM.pat) && Apart(QUOT, APOS.pat) && Apart(QUOT, AMP.pat)
    ensures Apart(NUM, APOS.pat) && Apart(NUM, AMP.pat) && Apart(APOS, AMP.pat)
  {
    hide Shaped, Apart;
    Shapes();
    ApartByShape(LT, 'l', 't', GT.pat, 'g', 't');
    ApartByShape(LT, 'l', 't', QUOT.pat, 'q', 'u');
    ApartByShape(LT, 'l', 't', NUM.pat, '#', '3');
    ApartByShape(LT, 'l', 't', APOS.pat, 'a', 'p');
    ApartByShape(LT, 'l', 't', AMP.pat, 'a', 'm');
    ApartByShape(GT, 'g', 't', QUOT.pat, 'q', 'u');
    ApartByShape(GT, 'g', 't', NUM.pat, '#', '3');
    ApartByShape(GT, 'g', 't', APOS.pat, 'a', 'p');
    ApartByShape(GT, 'g', 't', AMP.pat, 'a', 'm');
    ApartByShape(QUOT, 'q', 'u', NUM.pat, '#', '3');
    ApartByShape(QUOT, 'q', 'u', APOS.pat, 'a', 'p');
    ApartByShape(QUOT, 'q', 'u', AMP.pat, 'a', 'm');
    ApartByShape(NUM, '#', '3', APOS.pat, 'a', 'p');
    ApartByShape(NUM, '#', '3', AMP.pat, 'a', 'm');
    ApartByShape(APOS, 'a', 'p', AMP.pat, 'a', 'm');
  }

  lemma SixRules()
    ensures NonEmpty(RULES) && NonEmpty([]) && NonEmpty([LT]) && NonEmpty([LT, GT]) && NonEmpty([LT, GT, QUOT])
    ensures NonEmpty([LT, GT, QUOT, NUM]) && NonEmpty([LT, GT, QUOT, NUM, APOS])
    ensures forall r :: r in RULES ==> IsEntity(r.pat)
    ensures Independent([], LT.pat) && Independent([LT], GT.pat) && Independent([LT, GT], QUOT.pat)
    ensures Independent([LT, GT, QUOT], NUM.pat) && Independent([LT, GT, QUOT, NUM], APOS.pat)
    ensures Independent([LT, GT, QUOT, NUM, APOS], AMP.pat)
  {
    PairsApart();
    EntityShapes();
    hide Apart, IsEntity;
  }

  lemma {:induction false} NoRules(s: string)
    requires NonEmpty([])
    ensures OnePass([], s) == s
  {
    if s != "" {
      NoRules(s[1..]);
    }
  }

  /** For every string, the six passes are one left-to-right pass: nothing is ever decoded twice. */
  lemma SequentialIsSinglePass(s: string)
    ensures NonEmpty(RULES) && DecodeEntities(s) == OnePass(RULES, s)
  {
    hide OnePass, Replace, Independent, NonEmpty, Match;
    SixRules();
    NoRules(s);
    assert [] + [LT] == [LT] && [LT] + [GT] == [LT, GT] && [LT, GT] + [QUOT] == [LT, GT, QUOT];
    assert [LT, GT, QUOT] + [NUM] == [LT, GT, QUOT, NUM];
    assert [LT, GT, QUOT, NUM] + [APOS] == [LT, GT, QUOT, NUM, APOS];
    assert [LT, GT, QUOT, NUM, APOS] + [AMP] == RULES;
    OneMorePass([], LT, s);
    OneMorePass([LT], GT, s);
    OneMorePass([LT, GT], QUOT, s);
    OneMorePass([LT, GT, QUOT], NUM, s);
    OneMorePass([LT, GT, QUOT, NUM], APOS, s);
    OneMorePass([LT, GT, QUOT, NUM, APOS], AMP, s);
  }

  // ---- undoing escapes ----------------------------------------------------

  /**
   * `e` spells `t` with each character either raw or as one of its entities; an ampersand may not
   * stand raw (section 4.6 of XML 1.0).
   */
  ghost predicate Escapes(t: string, e: string)
    decreases |t|
  {
    if t == "" then e == ""
    else
      || (e != "" && e[0] == t[0] && t[0] != '&' && Escapes(t[1..], e[1..]))
      || (exists r :: r in RULES && r.rep == t[0] && r.pat <= e && Escapes(t[1..], e[|r.pat|..]))
  }

  /** No entity of the rules starts another one, so the entity that is there is the one found. */
  lemma {:induction false} MatchInFront(rules: seq<Rule>, r: Rule, e: string)
    requires r in rules && r.pat <= e
    requires forall i, j :: 0 <= i < j < |rules| ==> Apart(rules[i], rules[j].pat)
    ensures Match(rules, e) == Some(r)
  {
    if rules[0] != r {
      var j :| 0 <= j < |rules| && rules[j] == r;
      assert Apart(rules[0], rules[j].pat);
      if rules[0].pat <= e {
        PrefixesCompare(rules[0].pat, r.pat, e);
      }
      assert forall i, k :: 0 <= i < k < |rules| - 1 ==> rules[1..][i] == rules[i + 1] && rules[1..][k] == rules[k + 1];
      assert rules[1..][j - 1] == r;
      MatchInFront(rules[1..], r, e);
    }
  }

  lemma RulesApart()
    ensures forall i, j :: 0 <= i < j < |RULES| ==> Apart(RULES[i], RULES[j].pat)
  {
    hide Apart;
    PairsApart();
    assert RULES == [LT, GT, QUOT, NUM, APOS, AMP];
  }

  /** Decoding undoes every standard escaping of any text. */
  lemma DecodeUndoesEscaping(t: string, e: string)
    requires Escapes(t, e)
    ensures DecodeEntities(e) == t
  {
    SixRules();
    SequentialIsSinglePass(e);
    RulesApart();
    PassUndoesEscaping(t, e);
    hide DecodeEntities, OnePass;
  }

  lemma {:induction false} PassUndoesEscaping(t: string, e: string)
    requires Escapes(t, e) && NonEmpty(RULES)
    requires forall r :: r in RULES ==> IsEntity(r.pat)
    requires forall i, j :: 0 <= i < j < |RULES| ==> Apart(RULES[i], RULES[j].pat)
    ensures OnePass(RULES, e) == t
    decreases |t|
  {
    hide Apart;
    if t != "" {
      if e != "" && e[0] == t[0] && t[0] != '&' && Escapes(t[1..], e[1..]) {
        NoMatch(RULES, e);
        PassUndoesEscaping(t[1..], e[1..]);
        OnePassPlain(RULES, e);
      } else {
        var r :| r in RULES && r.rep == t[0] && r.pat <= e && Escapes(t[1..], e[|r.pat|..]);
        MatchInFront(RULES, r, e);
        PassUndoesEscaping(t[1..], e[|r.pat|..]);
        OnePassRule(RULES, r, e);
      }
      Uncons(t);
    }
    hide OnePass, Match, Escapes;
  }

  lemma OnePassPlain(rules: seq<Rule>, e: string)
    requires NonEmpty(rules) && e != "" && Match(rules, e).None?
    ensures OnePass(rules, e) == [e[0]] + OnePass(rules, e[1..])
  {
  }

  lemma OnePassRule(rules: seq<Rule>, r: Rule, e: string)
    requires NonEmpty(rules) && e != "" && Match(rules, e) == Some(r)
    ensures OnePass(rules, e) == [r.rep] + OnePass(rules, e[|r.pat|..])
  {
  }
}

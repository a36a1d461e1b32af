/** The channel list: posted as JSON, kept in `channels.txt`, read back by reconcile (`src/api.rs`, `src/renew.rs`). */
module Channels {
  import opened Base
  import opened Text
  import Json
  import Utf8

  /** Operator documentation: a line that is blank or starts with `#` once trimmed. */
  predicate IsComment(line: string) {
    var t := Trim(line);
    t == "" || t[0] == '#'
  }

  /** `is_safe_channel_entry`, which looks at the bytes. */
  predicate IsSafe(s: string) { s != "" && CleanBytes(Utf8.Encode(s)) }

  predicate CleanBytes(b: seq<Byte>) { forall i :: 0 <= i < |b| ==> b[i] >= 0x20 && b[i] != 0x7f }

  predicate CleanChars(s: string) { forall i :: 0 <= i < |s| ==> s[i] as int >= 0x20 && s[i] as int != 0x7f }

  lemma {:induction false} CleanIsCharwise(s: string)
    ensures CleanBytes(Utf8.Encode(s)) <==> CleanChars(s)
  {
    if s != "" {
      var b, rest := Utf8.EncodeChar(s[0]), Utf8.Encode(s[1..]);
      CleanIsCharwise(s[1..]);
      assert CleanBytes(b) <==> s[0] as int >= 0x20 && s[0] as int != 0x7f by {
        if s[0] as int < 0x80 { assert b[0] == s[0] as int; }
      }
      assert CleanBytes(b + rest) <==> CleanBytes(b) && CleanBytes(rest) by { CleanSplit(b, rest); }
      assert CleanChars(s) <==> CleanChars([s[0]]) && CleanChars(s[1..]) by {
        Uncons(s);
        assert s[1..] == s[1..|s|];
        forall i | 0 <= i < |s| ensures s[i] == if i == 0 then [s[0]][0] else s[1..][i - 1] {}
      }
    }
  }

  lemma CleanSplit(a: seq<Byte>, b: seq<Byte>)
    ensures CleanBytes(a + b) <==> CleanBytes(a) && CleanBytes(b)
  {
    var s := a + b;
    assert forall i :: 0 <= i < |a| ==> s[i] == a[i];
    assert forall i :: 0 <= i < |b| ==> s[|a| + i] == b[i];
  }

  // ---- writing the file ---------------------------------------------------

  function Comments(lines: seq<string>): seq<string> { Filter(IsComment, lines) }

  function OldLines(existing: Option<string>): seq<string> {
    match existing case Some(text) => Lines(text) case None => []
  }

  function Rendered(existing: Option<string>, channels: seq<string>): string {
    Unlines(Comments(OldLines(existing))) + Unlines(channels)
  }

  lemma UnlinesNext(ls: seq<string>, i: nat)
    requires i < |ls|
    ensures Unlines(ls[..i + 1]) == Unlines(ls[..i]) + ls[i] + "\n"
  {
    assert ls[..i + 1] == ls[..i] + [ls[i]];
    UnlinesAppend(ls[..i], [ls[i]]);
    assert [ls[i]][1..] == [];
    assert Unlines([ls[i]]) == ls[i] + "\n";
  }

  lemma CommentsNext(ls: seq<string>, i: nat)
    requires i < |ls|
    ensures Unlines(Comments(ls[..i + 1])) ==
      Unlines(Comments(ls[..i])) + if IsComment(ls[i]) then ls[i] + "\n" else ""
  {
    hide IsComment;
    assert ls[..i + 1] == ls[..i] + [ls[i]];
    FilterAppend(IsComment, ls[..i], [ls[i]]);
    FilterCons(IsComment, ls[i], []);
    assert [ls[i]] + [] == [ls[i]];
    var kept := if IsComment(ls[i]) then [ls[i]] else [];
    UnlinesAppend(Comments(ls[..i]), kept);
    if IsComment(ls[i]) {
      assert kept[1..] == [];
      assert Unlines(kept) == ls[i] + "\n";
    }
  }

  /** `render_channels_file`: `existing` is `None` when the file cannot be read as text. */
  method RenderChannelsFile(existing: Option<string>, channels: seq<string>) returns (out: string)
    ensures out == Rendered(existing, channels)
  {
    hide Lines, Trim;
    out := "";
    var lines := OldLines(existing);
    for i := 0 to |lines|
      invariant out == Unlines(Comments(lines[..i]))
    {
      CommentsNext(lines, i);
      var t := Trim(lines[i]);
      if t == "" || t[0] == '#' {
        out := out + (lines[i] + "\n");
      } else {
        assert Unlines(Comments(lines[..i])) + "" == Unlines(Comments(lines[..i]));
      }
    }
    assert lines[..|lines|] == lines;
    ghost var kept := out;
    assert kept + "" == kept;
    for i := 0 to |channels|
      invariant out == kept + Unlines(channels[..i])
    {
      UnlinesNext(channels, i);
      out := out + channels[i] + "\n";
    }
    assert channels[..|channels|] == channels;
  }

  // ---- reading it back ----------------------------------------------------

  /** The entries a reader of the file acts on. */
  function Entries(lines: seq<string>): seq<string> {
    if lines == [] then []
    else (if IsComment(lines[0]) then [] else [Trim(lines[0])]) + Entries(lines[1..])
  }

  lemma {:induction false} EntriesAppend(a: seq<string>, b: seq<string>)
    ensures Entries(a + b) == Entries(a) + Entries(b)
  {
    hide IsComment, Trim;
    if a == [] {
      assert a + b == b;
    } else {
      assert (a + b)[1..] == a[1..] + b;
      EntriesAppend(a[1..], b);
    }
  }

  predicate Unmarked(s: string) { s == "" || s[0] != '#' }

  function DropCrs(ls: seq<string>): (r: seq<string>)
    ensures |r| == |ls|
    ensures forall i :: 0 <= i < |r| ==> r[i] == DropCr(ls[i])
  {
    seq(|ls|, i requires 0 <= i < |ls| => DropCr(ls[i]))
  }

  /** Unterminated carriage returns aside, lines written one after the other are read one by one. */
  lemma {:induction false} LinesOfUnlines(ls: seq<string>, rest: string)
    requires forall i :: 0 <= i < |ls| ==> '\n' !in ls[i]
    ensures Lines(Unlines(ls) + rest) == DropCrs(ls) + Lines(rest)
  {
    if ls == [] {
      assert Unlines(ls) + rest == rest;
      assert DropCrs(ls) + Lines(rest) == Lines(rest);
    } else {
      hide Lines, Unlines, DropCr;
      LinesOfUnlines(ls[1..], rest);
      FirstOfMany(ls, rest);
      EndOfLine(ls[0], Unlines(ls[1..]) + rest);
      Assoc([DropCr(ls[0])], DropCrs(ls[1..]), Lines(rest));
    }
  }

  lemma FirstOfMany(ls: seq<string>, rest: string)
    requires ls != []
    ensures Unlines(ls) + rest == ls[0] + "\n" + (Unlines(ls[1..]) + rest)
    ensures DropCrs(ls) == [DropCr(ls[0])] + DropCrs(ls[1..])
  {
    Assoc(ls[0] + "\n", Unlines(ls[1..]), rest);
  }

  lemma {:induction false} TrimStartDropLast(m: string, w: char)
    requires IsWhitespace(w)
    ensures TrimStart(m + [w]) == if TrimStart(m) == "" then "" else TrimStart(m) + [w]
  {
    if m == "" {
      assert (m + [w])[1..] == "";
    } else {
      assert (m + [w])[1..] == m[1..] + [w];
      TrimStartDropLast(m[1..], w);
    }
  }

  lemma TrimEndDropLast(m: string, w: char)
    requires IsWhitespace(w)
    ensures TrimEnd(m + [w]) == TrimEnd(m)
  {
    assert (m + [w])[..|m|] == m;
  }

  lemma TrimDropCr(l: string)
    ensures Trim(DropCr(l)) == Trim(l)
  {
    if l != "" && l[|l| - 1] == '\r' {
      var m := l[..|l| - 1];
      assert l == m + ['\r'];
      TrimStartDropLast(m, '\r');
      TrimEndDropLast(TrimStart(m), '\r');
      hide TrimStart, TrimEnd;
    }
  }

  lemma CommentStays(l: string)
    ensures IsComment(DropCr(l)) <==> IsComment(l)
  {
    hide DropCr, Trim;
    TrimDropCr(l);
  }

  lemma {:induction false} NoEntries(ls: seq<string>)
    requires forall l :: l in ls ==> IsComment(l)
    ensures Entries(DropCrs(ls)) == []
  {
    hide IsComment;
    if ls != [] {
      NoEntries(ls[1..]);
      assert ls[0] in ls;
      CommentStays(ls[0]);
      assert DropCrs(ls)[1..] == DropCrs(ls[1..]);
    }
  }

  /** What extraction and the safety filter leave to be written. */
  predicate Writable(s: string) { IsSafe(s) && Trimmed(s) }

  lemma WritableIsOneLine(s: string)
    requires Writable(s)
    ensures '\n' !in s && DropCr(s) == s && Trim(s) == s && (IsComment(s) <==> !Unmarked(s))
  {
    CleanIsCharwise(s);
    TrimIdentity(s);
  }

  lemma {:induction false} WritableEntries(es: seq<string>)
    requires forall e :: e in es ==> Writable(e)
    ensures DropCrs(es) == es
    ensures Entries(es) == Filter(Unmarked, es)
    ensures Comments(es) == Filter(e => !Unmarked(e), es)
  {
    hide Writable, Trim, IsComment, Unmarked;
    if es != [] {
      WritableIsOneLine(es[0]);
      WritableEntries(es[1..]);
      assert DropCrs(es)[1..] == DropCrs(es[1..]);
      Uncons(es);
      Uncons(DropCrs(es));
    }
  }

  lemma RenderedLines(existing: Option<string>, es: seq<string>)
    requires forall e :: e in es ==> Writable(e)
    ensures Lines(Rendered(existing, es)) == DropCrs(Comments(OldLines(existing))) + es
  {
    var kept := Comments(OldLines(existing));
    if existing.Some? {
      LinesHoldNoBreak(existing.value);
    }
    hide Lines, Unlines, Writable;
    forall e | e in es ensures '\n' !in e { WritableIsOneLine(e); }
    WritableEntries(es);
    LinesOfUnlines(kept, Unlines(es));
    LinesOfUnlines(es, "");
    NoLines();
    assert Unlines(es) + "" == Unlines(es);
    assert es + [] == es;
  }

  lemma NoLines()
    ensures Lines("") == []
  {
  }

  /** Reading the rendered file gives the entries written, except those that look like comments. */
  lemma RereadEntries(existing: Option<string>, es: seq<string>)
    requires forall e :: e in es ==> Writable(e)
    ensures Entries(Lines(Rendered(existing, es))) == Filter(Unmarked, es)
  {
    hide Rendered, IsComment, Writable;
    var kept := Comments(OldLines(existing));
    RenderedLines(existing, es);
    EntriesAppend(DropCrs(kept), es);
    NoEntries(kept);
    WritableEntries(es);
  }

  /**
   * From the posted body to what reconcile acts on: the list survives exactly when each entry is
   * trimmed and not blank, holds no `]` and no control character, and does not start with `#`.
   */
  lemma PipelineIff(existing: Option<string>, pre: string, cs: seq<string>, gaps: seq<string>, post: string)
    requires '[' !in pre && |gaps| == |cs| + 1 && Json.GapsOk(gaps)
    ensures var posted := Filter(IsSafe, Json.Strings(pre + "[" + Json.Elements(cs, gaps) + "]" + post));
      Entries(Lines(Rendered(existing, posted))) == cs <==>
        (forall c :: c in cs ==> Json.Survives(c) && IsSafe(c) && Unmarked(c))
  {
    var body := Json.Elements(cs, gaps);
    var text := pre + "[" + body + "]" + post;
    var found := Json.Strings(text);
    var posted := Filter(IsSafe, found);
    Json.StringsOfElementsIff(pre, cs, gaps, post);
    Json.InnerOf(pre, body, post);
    Json.LiteralsChars(Json.Inner(text));
    Json.NoBracketRead(Json.Inner(text));
    hide Json.Elements, Json.Inner, Json.Literals, Trimmed, IsSafe, Unmarked, Rendered, Lines, Entries, Json.Control;
    forall e | e in posted ensures Writable(e) { assert e in found; }
    RereadEntries(existing, posted);
    if forall c :: c in cs ==> Json.Survives(c) && IsSafe(c) && Unmarked(c) {
      FilterAll(IsSafe, cs);
      FilterAll(Unmarked, cs);
    }
    if Filter(Unmarked, posted) == cs {
      forall c | c in cs ensures Json.Survives(c) && IsSafe(c) && Unmarked(c) {
        assert c in posted && c in found;
        SafeSurvives(c);
      }
    }
  }

  /** An entry that reconcile will act on: not blank, no control character, no `#` in front. */
  predicate Acceptable(m: string) {
    m != "" && m[0] != '#' && forall i :: 0 <= i < |m| ==> m[i] as int >= 0x20 && m[i] as int != 0x7f
  }

  lemma AcceptableIs(m: string)
    ensures Acceptable(m) <==> m != "" && IsSafe(m) && Unmarked(m)
  {
    CleanIsCharwise(m);
  }

  /**
   * What a posted list becomes, whatever white space stands around its strings and between them: the
   * acceptable entries without that white space, in their order.
   */
  lemma PipelineGives(existing: Option<string>, pre: string, cs: seq<string>, ms: seq<string>, gaps: seq<string>,
                      post: string)
    requires '[' !in pre && |gaps| == |cs| + 1 && Json.GapsOk(gaps) && Padded(cs, ms)
    requires forall c :: c in cs ==> Json.Readable(c)
    ensures var posted := Filter(IsSafe, Json.Strings(pre + "[" + Json.Elements(cs, gaps) + "]" + post));
      Entries(Lines(Rendered(existing, posted))) == Filter(Acceptable, ms)
  {
    var text := pre + "[" + Json.Elements(cs, gaps) + "]" + post;
    var found := Json.Strings(text);
    var posted := Filter(IsSafe, found);
    Json.StringsOfElements(pre, cs, ms, gaps, post);
    Json.LiteralsChars(Json.Inner(text));
    hide Json.Elements, Json.Inner, Json.Literals, Padded, Json.Readable, Trimmed, IsSafe, Rendered, Lines, Entries;
    forall e | e in posted ensures Writable(e) { assert e in found; }
    RereadEntries(existing, posted);
    forall m ensures Acceptable(m) <==> m != "" && IsSafe(m) && Unmarked(m) { AcceptableIs(m); }
    FilterChain(m => m != "", IsSafe, Unmarked, Acceptable, ms);
  }

  lemma SafeSurvives(s: string)
    requires IsSafe(s)
    ensures s != "" && forall c :: c in s ==> !Json.Control(c)
  {
    CleanIsCharwise(s);
  }

  lemma DropCrsAreComments(ls: seq<string>)
    requires forall l :: l in ls ==> IsComment(l)
    ensures Comments(DropCrs(ls)) == DropCrs(ls)
  {
    hide IsComment, DropCr;
    forall l | l in DropCrs(ls) ensures IsComment(l) {
      var i :| 0 <= i < |ls| && DropCrs(ls)[i] == l;
      assert ls[i] in ls;
      CommentStays(ls[i]);
    }
    FilterAll(IsComment, DropCrs(ls));
  }

  lemma DropCrsSameIff(ls: seq<string>)
    requires forall l :: l in ls ==> '\n' !in l
    ensures DropCrs(ls) == ls <==> (forall l :: l in ls ==> IsLine(l))
  {
    if DropCrs(ls) == ls {
      forall l | l in ls ensures IsLine(l) {
        var i :| 0 <= i < |ls| && ls[i] == l;
        assert DropCr(ls[i]) == ls[i];
      }
    } else {
      var i :| 0 <= i < |ls| && DropCrs(ls)[i] != ls[i];
      assert ls[i] in ls && !IsLine(ls[i]);
    }
  }

  /** Operator comments and blank lines stay in order, and verbatim exactly when none ends in a stray CR. */
  lemma CommentsSurviveIff(existing: Option<string>, es: seq<string>)
    requires forall e :: e in es ==> Writable(e) && Unmarked(e)
    ensures var before, after := Comments(OldLines(existing)), Comments(Lines(Rendered(existing, es)));
      && after == DropCrs(before)
      && (after == before <==> (forall l :: l in before ==> IsLine(l)))
  {
    hide Lines, Rendered, DropCr, IsLine, Writable, Unmarked;
    var before := Comments(OldLines(existing));
    if existing.Some? {
      LinesHoldNoBreak(existing.value);
    }
    hide OldLines;
    RenderedLines(existing, es);
    FilterAppend(IsComment, DropCrs(before), es);
    WritableEntries(es);
    FilterNone(e => !Unmarked(e), es);
    DropCrsAreComments(before);
    DropCrsSameIff(before);
    hide IsComment;
    assert DropCrs(before) + [] == DropCrs(before);
  }

  // ---- files written by hand ----------------------------------------------

  predicate IsEntry(m: string) { m != "" && m[0] != '#' }

  /** Lines are read without the white space around them; blank lines and comments are passed over. */
  lemma {:induction false} PaddedEntries(lines: seq<string>, ms: seq<string>)
    requires Padded(lines, ms)
    ensures Entries(lines) == Filter(IsEntry, ms)
  {
    hide Trim, Pads, Padded;
    if lines != [] {
      PaddedRest(lines, ms);
      TrimIff(lines[0], ms[0]);
      PaddedEntries(lines[1..], ms[1..]);
    } else {
      NothingPadded(ms);
    }
  }

  lemma DropCrsPadded(lines: seq<string>, ms: seq<string>)
    requires Padded(lines, ms)
    ensures Padded(DropCrs(lines), ms)
  {
    hide Pads, Trim, DropCr;
    forall i | 0 <= i < |lines| ensures Pads(DropCrs(lines)[i], ms[i]) {
      TrimDropCr(lines[i]);
      TrimIff(lines[i], ms[i]);
      TrimIff(DropCr(lines[i]), ms[i]);
    }
  }

  /** However a file is indented, and whether its lines end in `\n` or `\r\n`, its entries are the same. */
  lemma FileMeaning(lines: seq<string>, ms: seq<string>)
    requires Padded(lines, ms) && forall l :: l in lines ==> '\n' !in l
    ensures Entries(Lines(Unlines(lines))) == Filter(IsEntry, ms)
  {
    hide Padded, Lines, Unlines, IsEntry;
    LinesOfUnlines(lines, "");
    NoLines();
    assert Unlines(lines) + "" == Unlines(lines);
    assert DropCrs(lines) + [] == DropCrs(lines);
    DropCrsPadded(lines, ms);
    PaddedEntries(DropCrs(lines), ms);
  }

  // ---- the desired set ----------------------------------------------------

  /** What the resolver said of each entry: the `i`-th attempt may fail for reasons of its own. */
  function Answers(entries: seq<string>, resolve: (nat, string) -> Option<string>): (r: seq<Option<string>>)
    ensures |r| == |entries|
    ensures forall i :: 0 <= i < |r| ==> r[i] == resolve(i, entries[i])
  {
    seq(|entries|, i requires 0 <= i < |entries| => resolve(i, entries[i]))
  }

  /** The ids found, each at its first occurrence. */
  function Resolved(answers: seq<Option<string>>): seq<string> {
    if answers == [] then []
    else
      var front, last := Resolved(answers[..|answers| - 1]), answers[|answers| - 1];
      if last.Some? && last.value !in front then front + [last.value] else front
  }

  lemma ResolvedNext(answers: seq<Option<string>>, a: Option<string>)
    ensures Resolved(answers + [a]) ==
      if a.Some? && a.value !in Resolved(answers) then Resolved(answers) + [a.value] else Resolved(answers)
  {
    assert (answers + [a])[..|answers|] == answers;
  }

  /** No channel twice, and none but those some entry resolved to. */
  lemma {:induction false} ResolvedMeaning(answers: seq<Option<string>>)
    ensures Distinct(Resolved(answers))
    ensures forall c :: c in Resolved(answers) <==> Some(c) in answers
  {
    if answers != [] {
      var front, last := answers[..|answers| - 1], answers[|answers| - 1];
      ResolvedMeaning(front);
      assert forall a :: a in answers <==> a in front || a == last by { assert answers == front + [last]; }
    }
  }

  /**
   * `desired_set`: a file that cannot be read, or one entry that cannot be resolved, makes the set
   * incomplete, so that reconcile removes nothing.
   */
  method DesiredSet(content: Option<string>, resolve: (nat, string) -> Option<string>)
    returns (out: seq<string>, complete: bool)
    ensures content.None? ==> out == [] && !complete
    ensures content.Some? ==>
      var answers := Answers(Entries(Lines(content.value)), resolve);
      out == Resolved(answers) && (complete <==> None !in answers)
    ensures Distinct(out)
  {
    hide *;
    out, complete := [], content.Some?;
    NothingDesired(resolve);
    if content.None? {
      return;
    }
    var lines, tried := Lines(content.value), 0;
    assert lines[..0] == [];
    for i := 0 to |lines|
      invariant tried == |Entries(lines[..i])|
      invariant out == Resolved(Answers(Entries(lines[..i]), resolve))
      invariant complete <==> None !in Answers(Entries(lines[..i]), resolve)
    {
      EntriesNext(lines, i);
      CommentMeaning(lines[i]);
      var line := Trim(lines[i]);
      if line == "" || line[0] == '#' {
        continue;
      }
      ghost var before := Answers(Entries(lines[..i]), resolve);
      var answer := resolve(tried, line);
      AnswersNext(Entries(lines[..i]), line, resolve);
      ResolvedNext(before, answer);
      assert None in before + [answer] <==> None in before || answer.None?;
      tried := tried + 1;
      match answer {
        case Some(uc) => if uc !in out { out := out + [uc]; }
        case None => complete := false;
      }
    }
    assert lines[..|lines|] == lines;
    ResolvedMeaning(Answers(Entries(lines), resolve));
  }

  lemma CommentMeaning(line: string)
    ensures IsComment(line) <==> Trim(line) == "" || Trim(line)[0] == '#'
  {
  }

  lemma NothingDesired(resolve: (nat, string) -> Option<string>)
    ensures Entries([]) == [] && Resolved(Answers([], resolve)) == [] && None !in Answers([], resolve)
    ensures Distinct<string>([])
  {
  }

  lemma EntriesNext(lines: seq<string>, i: nat)
    requires i < |lines|
    ensures Entries(lines[..i + 1]) ==
      if IsComment(lines[i]) then Entries(lines[..i]) else Entries(lines[..i]) + [Trim(lines[i])]
  {
    hide IsComment, Trim;
    assert lines[..i + 1] == lines[..i] + [lines[i]];
    EntriesAppend(lines[..i], [lines[i]]);
    assert [lines[i]][1..] == [];
    assert Entries([]) == [];
    assert Entries(lines[..i]) + [] == Entries(lines[..i]);
  }

  lemma AnswersNext(entries: seq<string>, e: string, resolve: (nat, string) -> Option<string>)
    ensures Answers(entries + [e], resolve) == Answers(entries, resolve) + [resolve(|entries|, e)]
  {
  }
}

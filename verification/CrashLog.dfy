/** What a crash in the middle of an append leaves behind, and what the next readers make of it. */
module CrashLog {
  import opened Base
  import opened Text
  import opened EventLog
  import opened StoreSpec
  import Percent
  import Utf8

  /** `frag` is what reached the disk of the line for `e`: nothing, a part, or all of it. */
  predicate Torn(frag: seq<Byte>, e: Event) { frag <= Utf8.Encode(FormatLine(e)) }

  /** Every field before the title is whole: all six separators arrived, and no character is cut. */
  predicate HeadSurvives(frag: seq<Byte>) {
    var d := Utf8.Decode(frag);
    d.Some? && Count(d.value, '\t') == 6
  }

  lemma WholeOrHeadless(frag: seq<Byte>, e: Event)
    requires Torn(frag, e)
    ensures frag == Utf8.Encode(FormatLine(e)) || frag <= Utf8.Encode(Row(e))
  {
    Utf8.EncodeAppend(Row(e), "\n");
    NewlineBytes();
    var whole := Utf8.Encode(FormatLine(e));
    assert whole == Utf8.Encode(Row(e)) + [10];
    if |frag| < |whole| {
      PrefixWithin(frag, Utf8.Encode(Row(e)), [10]);
    }
  }

  lemma FragmentHasNoNewline(frag: seq<Byte>, e: Event)
    requires frag <= Utf8.Encode(Row(e))
    ensures 10 !in frag
  {
    RowIsClean(e);
    Utf8.EncodeAscii(Row(e), '\n');
    PrefixAvoids(frag, Utf8.Encode(Row(e)), 10);
  }

  /** The reader sees the fragment as one last line, or stops at it. */
  lemma ReadFragment(frag: seq<Byte>)
    requires frag != [] && 10 !in frag
    ensures ReadLines(frag) == match Utf8.Decode(frag) case Some(p) => [p] case None => []
  {
    IndexOfNone(frag, 10);
  }

  /** A cut row that still has seven columns is the row of the same event with a cut title. */
  lemma CutRow(e: Event, p: string)
    requires p <= Row(e)
    ensures ParseRow(p).Some? <==> Count(p, '\t') == 6
    ensures ParseRow(p).Some? ==> ParseRow(p).value.(title := e.title) == e
  {
    FieldsAreClean(e);
    SplitOfPrefix(Fields(e), '\t', p);
    SplitCount(p, '\t');
    var q, f := Split(p, '\t'), Fields(e);
    if |q| == 7 {
      assert forall i :: 0 <= i < 6 ==> q[i] == q[..6][i] && f[i] == f[..6][i];
      ParseDec(e.seqno, U64_BOUND);
      ParseDec(e.receivedAt, U64_BOUND);
      Percent.RoundTrip(e.kind);
      Percent.RoundTrip(e.channelId);
      Percent.RoundTrip(e.videoId);
      Percent.RoundTrip(e.ts);
    }
  }

  lemma HeadOfWholeLine(e: Event)
    ensures HeadSurvives(Utf8.Encode(FormatLine(e)))
  {
    Utf8.DecodeEncode(FormatLine(e));
    RowHasSixTabs(e);
    CountAppend(Row(e), "\n", '\t');
    CountNone("\n", '\t');
  }

  lemma TornTail(e: Event, frag: seq<Byte>)
    requires Torn(frag, e)
    ensures HeadSurvives(frag) ==> |Records(frag)| == 1 && Records(frag)[0].(title := e.title) == e
    ensures !HeadSurvives(frag) ==> Records(frag) == []
  {
    WholeOrHeadless(frag, e);
    if frag == Utf8.Encode(FormatLine(e)) {
      HeadOfWholeLine(e);
      LogBytesOne(e);
      LogRoundTrip([e]);
    } else if frag == [] {
      assert Utf8.Decode(frag) == Some("");
    } else {
      FragmentHasNoNewline(frag, e);
      ReadFragment(frag);
      Utf8.DecodeOfPrefix(Row(e), frag);
      if Utf8.Decode(frag).Some? {
        var p := Utf8.Decode(frag).value;
        CutRow(e, p);
        assert [p][1..] == [];
        assert ParseAll([]) == [];
      }
    }
  }

  /**
   * The first read after a crash recovers every event written before the torn one. It adds one
   * event exactly when the head of the torn line arrived, and that event differs from the one being
   * written in its title only.
   */
  lemma CrashRecovery(es: seq<Event>, e: Event, frag: seq<Byte>)
    requires Torn(frag, e)
    ensures var r := Records(LogBytes(es) + frag);
      && es <= r
      && |r| == |es| + (if HeadSurvives(frag) then 1 else 0)
      && (HeadSurvives(frag) ==> r[|es|].(title := e.title) == e)
  {
    RecordsAfterClean(es, frag);
    TornTail(e, frag);
  }

  // ---- appending behind a fragment ----------------------------------------

  /** A cut character stays cut when an ASCII byte follows. */
  lemma {:induction false} DecodeStaysBad(b: seq<Byte>, x: Byte, rest: seq<Byte>)
    requires Utf8.Decode(b) == None && x < 0x80
    ensures Utf8.Decode(b + [x] + rest) == None
    decreases |b|
  {
    var r := Utf8.Next(b);
    var t := b + [x] + rest;
    NextExtended(b, x, rest);
    if r.Good? {
      DecodeStaysBad(b[r.len..], x, rest);
      assert t[r.len..] == b[r.len..] + [x] + rest;
    }
  }

  lemma NextExtended(b: seq<Byte>, x: Byte, rest: seq<Byte>)
    requires b != [] && x < 0x80
    ensures Utf8.Next(b + [x] + rest) == Utf8.Next(b)
  {
    var t := b + [x] + rest;
    assert forall i :: 0 <= i < |b| ==> t[i] == b[i];
    assert t[|b|] == x;
  }

  lemma {:induction false} DecodeAppend(b: seq<Byte>, s: string)
    requires Utf8.Decode(b).Some?
    ensures Utf8.Decode(b + Utf8.Encode(s)) == Some(Utf8.Decode(b).value + s)
    decreases |b|
  {
    if b == [] {
      assert b + Utf8.Encode(s) == Utf8.Encode(s);
      Utf8.DecodeEncode(s);
      assert "" + s == s;
    } else {
      var n := Utf8.Next(b).len;
      var c := Utf8.Next(b).c;
      NextPrefix(b, Utf8.Encode(s));
      assert (b + Utf8.Encode(s))[n..] == b[n..] + Utf8.Encode(s);
      DecodeAppend(b[n..], s);
      Assoc([c], Utf8.Decode(b[n..]).value, s);
    }
  }

  lemma NextPrefix(b: seq<Byte>, rest: seq<Byte>)
    requires b != [] && Utf8.Next(b).Good?
    ensures Utf8.Next(b + rest) == Utf8.Next(b)
  {
    assert forall i :: 0 <= i < |b| ==> (b + rest)[i] == b[i];
  }

  lemma ReadOneLine(g: seq<Byte>, rest: seq<Byte>)
    requires 10 !in g && g != [] && g[|g| - 1] != 13
    ensures ReadLines(g + [10] + rest) ==
      match Utf8.Decode(g) case Some(l) => [l] + ReadLines(rest) case None => []
  {
    hide Utf8.Decode;
    var b := g + [10] + rest;
    IndexOfUnique(g, 10, rest);
    assert b[..|g|] == g;
    assert b[|g| + 1..] == rest;
    assert DropCrByte(g) == g;
  }

  lemma DecodeGlued(frag: seq<Byte>, e2: Event)
    ensures Utf8.Decode(frag + Utf8.Encode(Row(e2))) ==
      match Utf8.Decode(frag) case Some(p) => Some(p + Row(e2)) case None => None
  {
    hide Utf8.Decode, Utf8.Encode, Row;
    var row := Utf8.Encode(Row(e2));
    RowStartsWithDigit(e2);
    if Utf8.Decode(frag).Some? {
      DecodeAppend(frag, Row(e2));
    } else {
      assert frag + row == frag + [row[0]] + row[1..];
      DecodeStaysBad(frag, row[0], row[1..]);
    }
  }

  lemma RowBytes(e: Event)
    ensures var row := Utf8.Encode(Row(e)); 10 !in row && 13 !in row && row != []
    ensures Utf8.Encode(FormatLine(e)) == Utf8.Encode(Row(e)) + [10]
  {
    Utf8.EncodeAppend(Row(e), "\n");
    NewlineBytes();
    RowIsClean(e);
    Utf8.EncodeAscii(Row(e), '\n');
    Utf8.EncodeAscii(Row(e), '\r');
    RowStartsWithDigit(e);
  }

  /** The line a reader makes of a fragment with a complete row glued to it. */
  lemma ReadGlued(frag: seq<Byte>, e2: Event, rest: seq<Byte>)
    requires 10 !in frag
    ensures ReadLines(frag + Utf8.Encode(FormatLine(e2)) + rest) ==
      match Utf8.Decode(frag) case Some(p) => [p + Row(e2)] + ReadLines(rest) case None => []
  {
    hide *;
    RowBytes(e2);
    DecodeGlued(frag, e2);
    var row := Utf8.Encode(Row(e2));
    var g := frag + row;
    assert g[|g| - 1] == row[|row| - 1];
    assert frag + (row + [10]) + rest == g + [10] + rest;
    ReadOneLine(g, rest);
  }

  lemma RowStartsWithDigit(e: Event)
    ensures Row(e) != "" && IsDigit(Row(e)[0])
    ensures Utf8.Encode(Row(e)) != [] && Utf8.Encode(Row(e))[0] < 0x80
  {
    assert Row(e) == Dec(e.seqno) + ['\t'] + Join(Fields(e)[1..], '\t');
    assert Row(e)[0] == Dec(e.seqno)[0];
  }

  /** No fragment glued in front of a row reads as that row's event. */
  lemma GluedRowDiffers(e: Event, p: string, e2: Event)
    requires p <= Row(e) && p != "" && e.seqno >= 1
    ensures ParseRow(p + Row(e2)) != Some(e2)
    ensures ParseRow(p).Some? ==> ParseRow(p + Row(e2)) == None
  {
    var g := p + Row(e2);
    CountAppend(p, Row(e2), '\t');
    RowHasSixTabs(e2);
    SplitCount(g, '\t');
    CutRow(e, p);
    if Count(p, '\t') == 0 {
      FieldsAreClean(e);
      SplitOfPrefix(Fields(e), '\t', p);
      SplitCount(p, '\t');
      NoTabOneField(p);
      assert p <= Dec(e.seqno);
      GluedSeq(e, p, e2);
    }
  }

  lemma NoTabOneField(p: string)
    requires |Split(p, '\t')| == 1
    ensures Split(p, '\t')[0] == p
  {
  }

  lemma SeqColumn(line: string)
    ensures ParseRow(line).Some? ==> ParseUint(Split(line, '\t')[0], U64_BOUND) == Some(ParseRow(line).value.seqno)
  {
    hide ParseUint, Split;
  }

  lemma DigitsParsed(d: string)
    requires AllDigits(d)
    ensures ParseUint(d, U64_BOUND).Some? ==> ParseUint(d, U64_BOUND).value == Val(d)
  {
  }

  lemma RowFront(e: Event) returns (rest: string)
    ensures Row(e) == Dec(e.seqno) + ['\t'] + rest
  {
    rest := Join(Fields(e)[1..], '\t');
  }

  lemma GluedSeq(e: Event, p: string, e2: Event)
    requires p <= Dec(e.seqno) && p != "" && e.seqno >= 1
    ensures ParseRow(p + Row(e2)) != Some(e2)
  {
    hide *;
    var d, own := p + Dec(e2.seqno), Dec(e.seqno);
    var rest := RowFront(e2);
    Glue(p, Dec(e2.seqno), rest);
    GluedDigits(p, own, Dec(e2.seqno));
    SplitCons(d, '\t', rest);
    SeqColumn(p + Row(e2));
    DigitsParsed(d);
    ValPositive(p);
    ValMonotone(p, Dec(e2.seqno));
    ValDec(e2.seqno);
  }

  lemma Glue(p: string, d: string, rest: string)
    ensures p + (d + ['\t'] + rest) == (p + d) + ['\t'] + rest
  {
  }

  lemma GluedDigits(p: string, own: string, d: string)
    requires p <= own && p != "" && AllDigits(own) && AllDigits(d) && own[0] != '0'
    ensures AllDigits(p) && AllDigits(p + d) && '\t' !in p + d && p[0] != '0'
  {
    PrefixDigits(p, own);
    assert p[0] == own[0];
  }

  lemma PrefixDigits(p: string, d: string)
    requires p <= d && AllDigits(d)
    ensures AllDigits(p)
  {
    forall i | 0 <= i < |p| ensures IsDigit(p[i]) { assert p[i] == d[i]; }
  }

  /**
   * Opening a log with a torn tail neither truncates nor terminates it, so the next append lands on
   * the fragment. What is appended after the crash survives a second reopen exactly when the crash
   * left nothing of the torn line, or all of it.
   */
  lemma SecondReopenIsDurableIff(es: seq<Event>, e: Event, frag: seq<Byte>, later: seq<Event>)
    requires Torn(frag, e) && e.seqno >= 1 && later != []
    ensures Records(LogBytes(es) + frag + LogBytes(later)) == Records(LogBytes(es) + frag) + later
      <==> frag == [] || frag == Utf8.Encode(FormatLine(e))
  {
    WholeOrHeadless(frag, e);
    Assoc(LogBytes(es), frag, LogBytes(later));
    RecordsAfterClean(es, frag + LogBytes(later));
    RecordsAfterClean(es, frag);
    Assoc(es, Records(frag), later);
    SuffixEqual(es, Records(frag + LogBytes(later)), Records(frag) + later);
    if frag == [] {
      assert frag + LogBytes(later) == LogBytes(later);
      LogRoundTrip(later);
      assert Records(frag) == [];
      assert [] + later == later;
    } else if frag == Utf8.Encode(FormatLine(e)) {
      LogBytesOne(e);
      LogRoundTrip([e]);
      RecordsAfterClean([e], LogBytes(later));
      LogRoundTrip(later);
    } else {
      BrokenTail(e, frag, later);
    }
  }

  /**
   * A failed append leaves `k` bytes of its line behind and gives its number out again. The next
   * append is then stored as if nothing had happened exactly when no byte had reached the file.
   */
  lemma FailedAppendIsHarmlessIff(es: seq<Event>, e: Event, k: nat, e2: Event)
    requires k <= |Utf8.Encode(FormatLine(e))| && e.seqno == e2.seqno && e.seqno >= 1
    ensures Records(LogBytes(es) + Utf8.Encode(FormatLine(e))[..k] + Utf8.Encode(FormatLine(e2))) == es + [e2]
      <==> k == 0
  {
    var line := Utf8.Encode(FormatLine(e));
    var frag := line[..k];
    LogBytesOne(e2);
    Assoc(LogBytes(es), frag, LogBytes([e2]));
    RecordsAfterClean(es, frag + LogBytes([e2]));
    SuffixEqual(es, Records(frag + LogBytes([e2])), [e2]);
    LogRoundTrip([e2]);
    if k == 0 {
      assert frag + LogBytes([e2]) == LogBytes([e2]);
    } else if k == |line| {
      assert frag == line;
      LogBytesOne(e);
      RecordsAfterClean([e], LogBytes([e2]));
      assert |[e] + Records(LogBytes([e2]))| == 2;
    } else {
      WholeOrHeadless(frag, e);
      BrokenTail(e, frag, [e2]);
    }
  }

  /** A tail cut inside a multi-byte character hides every event appended after it from all readers. */
  lemma CutCharacterHidesLaterEvents(es: seq<Event>, e: Event, frag: seq<Byte>, later: seq<Event>)
    requires Torn(frag, e) && Utf8.Decode(frag) == None
    ensures Records(LogBytes(es) + frag + LogBytes(later)) == es
  {
    WholeOrHeadless(frag, e);
    Utf8.DecodeEncode(FormatLine(e));
    FragmentHasNoNewline(frag, e);
    Assoc(LogBytes(es), frag, LogBytes(later));
    RecordsAfterClean(es, frag + LogBytes(later));
    assert frag != [];
    if later == [] {
      assert frag + LogBytes(later) == frag;
      ReadFragment(frag);
    } else {
      Assoc(frag, Utf8.Encode(FormatLine(later[0])), LogBytes(later[1..]));
      ReadGlued(frag, later[0], LogBytes(later[1..]));
    }
    assert es + [] == es;
  }

  lemma SuffixEqual<T>(a: seq<T>, b: seq<T>, c: seq<T>)
    ensures a + b == a + c <==> b == c
  {
    if a + b == a + c {
      assert (a + b)[|a|..] == b;
      assert (a + c)[|a|..] == c;
    }
  }

  lemma BrokenParse(e: Event, p: string, e2: Event, ls: seq<string>)
    requires p <= Row(e) && p != "" && e.seqno >= 1
    ensures ParseAll([p + Row(e2)] + ls) != ParseAll([p]) + ([e2] + ParseAll(ls))
    ensures ParseAll([p + Row(e2)] + ls) != [e2] + ParseAll(ls)
  {
    GluedRowDiffers(e, p, e2);
    hide ParseRow, Row, ParseAll;
    var es, front := ParseAll(ls), ParseAll([p]);
    ParseGlued(p + Row(e2), ls, es);
    OneLineParse(p);
    assert |front + ([e2] + es)| == |front| + 1 + |es|;
    match ParseRow(p + Row(e2)) {
      case None =>
        assert |es| < |[e2] + es|;
      case Some(x) =>
        assert front == [] && front + ([e2] + es) == [e2] + es;
        assert ([x] + es)[0] == x && ([e2] + es)[0] == e2;
    }
  }

  lemma BrokenTail(e: Event, frag: seq<Byte>, later: seq<Event>)
    requires frag <= Utf8.Encode(Row(e)) && frag != [] && e.seqno >= 1 && later != []
    ensures Records(frag + LogBytes(later)) != Records(frag) + later
    ensures Records(frag + LogBytes(later)) != later
  {
    FragmentHasNoNewline(frag, e);
    hide ParseRow, Row, FormatLine, ParseAll, Utf8.Encode, Utf8.Decode, ReadLines;
    var e2, rest := later[0], LogBytes(later[1..]);
    Assoc(frag, Utf8.Encode(FormatLine(e2)), rest);
    ReadGlued(frag, e2, rest);
    ReadFragment(frag);
    Utf8.DecodeOfPrefix(Row(e), frag);
    LogRoundTrip(later[1..]);
    Uncons(later);
    if Utf8.Decode(frag).Some? {
      var p := Utf8.Decode(frag).value;
      assert p != "" by { Utf8.EncodeNothing(); }
      BrokenParse(e, p, e2, ReadLines(rest));
    } else {
      NothingParsed();
    }
  }

  lemma NothingParsed()
    ensures ParseAll([]) == []
  {
  }

  lemma OneLineParse(p: string)
    ensures ParseAll([p]) == match ParseRow(p) case Some(e) => [e] case None => []
  {
    assert [p][1..] == [];
    assert ParseAll([]) == [];
  }

  lemma ParseGlued(l: string, ls: seq<string>, es: seq<Event>)
    requires ParseAll(ls) == es
    ensures ParseAll([l] + ls) == match ParseRow(l) case Some(e) => [e] + es case None => es
  {
    assert ([l] + ls)[1..] == ls;
  }

  // ---- what is lost behind a torn tail ------------------------------------

  /** The event a reader makes of a row behind a cut number: the digits run together, if they fit. */
  function Renumbered(p: string, e: Event): seq<Event> {
    var v := Val(p + Dec(e.seqno));
    if v < U64_BOUND then [e.(seqno := v)] else []
  }

  lemma DigitsParse(d: string)
    requires d != "" && AllDigits(d)
    ensures ParseUint(d, U64_BOUND) == if Val(d) < U64_BOUND then Some(Val(d)) else None
  {
  }

  lemma ColumnsParse(line: string, d: string, e: Event)
    requires Split(line, '\t') == [d] + Fields(e)[1..] && d != "" && AllDigits(d)
    ensures ParseRow(line) == if Val(d) < U64_BOUND then Some(e.(seqno := Val(d))) else None
  {
    DigitsParse(d);
    ParseDec(e.receivedAt, U64_BOUND);
    Percent.RoundTrip(e.kind);
    Percent.RoundTrip(e.channelId);
    Percent.RoundTrip(e.videoId);
    Percent.RoundTrip(e.ts);
    Percent.RoundTrip(e.title);
    hide ParseUint, Val, Split, Dec;
  }

  lemma TailFields(e: Event) returns (rest: string)
    ensures Row(e) == Dec(e.seqno) + ['\t'] + rest
    ensures |Fields(e)| == 7 && Split(rest, '\t') == Fields(e)[1..]
  {
    rest := Join(Fields(e)[1..], '\t');
    FieldsAreClean(e);
    SplitJoin(Fields(e)[1..], '\t');
  }

  lemma GluedParse(own: string, p: string, e2: Event)
    requires p <= own && p != "" && AllDigits(own) && own[0] != '0'
    ensures ParseRow(p + Row(e2)) == if Val(p + Dec(e2.seqno)) < U64_BOUND then Some(Renumbered(p, e2)[0]) else None
  {
    hide ParseRow, Row, Fields, Split, Val, Dec;
    var d := p + Dec(e2.seqno);
    var rest := TailFields(e2);
    Glue(p, Dec(e2.seqno), rest);
    GluedDigits(p, own, Dec(e2.seqno));
    SplitCons(d, '\t', rest);
    ColumnsParse(p + Row(e2), d, e2);
  }

  /** A cut row without a tab is a beginning of the number. */
  lemma CutNumber(e: Event, p: string)
    requires p <= Row(e) && Count(p, '\t') == 0
    ensures p <= Dec(e.seqno)
  {
    FieldsAreClean(e);
    SplitOfPrefix(Fields(e), '\t', p);
    SplitCount(p, '\t');
    NoTabOneField(p);
  }

  /** The events a reader makes of the line that a fragment and the next row share. */
  lemma GluedEvents(e: Event, p: string, e2: Event)
    requires p <= Row(e) && p != "" && e.seqno >= 1
    ensures ParseRow(p + Row(e2)) ==
      if Count(p, '\t') >= 1 || Renumbered(p, e2) == [] then None else Some(Renumbered(p, e2)[0])
  {
    if Count(p, '\t') >= 1 {
      CountAppend(p, Row(e2), '\t');
      RowHasSixTabs(e2);
      SplitCount(p + Row(e2), '\t');
    } else {
      CutNumber(e, p);
      hide ParseRow, Row, Count;
      GluedParse(Dec(e.seqno), p, e2);
    }
  }

  /**
   * What a torn tail costs once events are appended behind it: if it holds a tab, exactly the next
   * event (and the one a first open had recovered from the tail); if it was cut inside the number, the
   * next event is read under the number whose digits ran together, or lost when that overflows. All
   * others survive.
   */
  lemma LostBehindTear(es: seq<Event>, e: Event, frag: seq<Byte>, later: seq<Event>)
    requires Torn(frag, e) && frag != [] && frag != Utf8.Encode(FormatLine(e)) && Utf8.Decode(frag).Some?
    requires e.seqno >= 1 && later != []
    ensures var p := Utf8.Decode(frag).value;
      Records(LogBytes(es) + frag + LogBytes(later)) ==
        es + (if Count(p, '\t') >= 1 then [] else Renumbered(p, later[0])) + later[1..]
  {
    WholeOrHeadless(frag, e);
    FragmentHasNoNewline(frag, e);
    Utf8.DecodeOfPrefix(Row(e), frag);
    hide ParseRow, Row, FormatLine, ParseAll, Utf8.Encode, Utf8.Decode, ReadLines, Renumbered, Count;
    var p, e2, rest := Utf8.Decode(frag).value, later[0], LogBytes(later[1..]);
    assert p != "" by { Utf8.EncodeNothing(); }
    Assoc(LogBytes(es), frag, LogBytes(later));
    RecordsAfterClean(es, frag + LogBytes(later));
    Assoc(frag, Utf8.Encode(FormatLine(e2)), rest);
    ReadGlued(frag, e2, rest);
    LogRoundTrip(later[1..]);
    GluedRest(e, p, e2, ReadLines(rest));
    var kept := if Count(p, '\t') >= 1 then [] else Renumbered(p, e2);
    Assoc(es, kept, later[1..]);
  }

  lemma GluedRest(e: Event, p: string, e2: Event, ls: seq<string>)
    requires p <= Row(e) && p != "" && e.seqno >= 1
    ensures ParseAll([p + Row(e2)] + ls) ==
      (if Count(p, '\t') >= 1 then [] else Renumbered(p, e2)) + ParseAll(ls)
  {
    GluedEvents(e, p, e2);
    AtMostOne(p, e2);
    hide ParseRow, Row, ParseAll, Renumbered, Count;
    ParseGlued(p + Row(e2), ls, ParseAll(ls));
  }

  lemma AtMostOne(p: string, e: Event)
    ensures |Renumbered(p, e)| <= 1
  {
  }

  /** A number that ran together is larger than the one it hides, and the next open continues above it. */
  lemma TearMovesNumbering(es: seq<Event>, e: Event, frag: seq<Byte>, later: seq<Event>)
    requires Torn(frag, e) && frag != [] && frag != Utf8.Encode(FormatLine(e)) && Utf8.Decode(frag).Some?
    requires e.seqno >= 1 && later != []
    requires var p := Utf8.Decode(frag).value; Count(p, '\t') == 0 && Renumbered(p, later[0]) != []
    ensures var v := Renumbered(Utf8.Decode(frag).value, later[0])[0].seqno;
      && v > later[0].seqno
      && NextSeqOf(Records(LogBytes(es) + frag + LogBytes(later))) >= SatAdd(v, 1)
  {
    LostBehindTear(es, e, frag, later);
    WholeOrHeadless(frag, e);
    Utf8.DecodeOfPrefix(Row(e), frag);
    var p := Utf8.Decode(frag).value;
    hide ParseRow, Row, FormatLine, ParseAll, Utf8.Encode, Utf8.Decode, ReadLines, Records, Count, Dec, NextSeqOf;
    assert p != "" by { Utf8.EncodeNothing(); }
    CutNumber(e, p);
    PrefixDigits(p, Dec(e.seqno));
    assert p[0] == Dec(e.seqno)[0];
    ValPositive(p);
    ValMonotone(p, Dec(later[0].seqno));
    ValDec(later[0].seqno);
    NextSeqAbove(Records(LogBytes(es) + frag + LogBytes(later)), Renumbered(p, later[0])[0]);
  }

  // ---- the numbering across a tear ----------------------------------------

  /** `later` are numbered from `first` on, as the process that opened the torn log numbers them. */
  ghost predicate NumberedFrom(first: nat, later: seq<Event>) {
    && first >= 1 && first + |later| < U64_MAX
    && forall i :: 0 <= i < |later| ==> later[i].seqno == first + i
  }

  lemma NextOfLater(first: nat, later: seq<Event>)
    requires NumberedFrom(first, later)
    ensures NextSeqOf(later) == if later == [] then 1 else first + |later|
  {
    if later != [] {
      NextSeqOfNumbered(later, first);
    }
  }

  lemma RestIsNumbered(first: nat, later: seq<Event>)
    requires NumberedFrom(first, later) && later != []
    ensures NumberedFrom(first + 1, later[1..])
  {
  }

  /** Numbers are issued again: behind such a tail the next open starts where the log before it ended. */
  lemma NumbersIssuedAgain(es: seq<Event>, e: Event, frag: seq<Byte>, later: seq<Event>)
    requires Torn(frag, e) && frag != [] && frag != Utf8.Encode(FormatLine(e)) && e.seqno >= 1 && later != []
    requires match Utf8.Decode(frag) case None => true case Some(p) => Count(p, '\t') >= 1 && |later| == 1
    ensures NextSeqOf(Records(LogBytes(es) + frag + LogBytes(later))) == NextSeqOf(es)
  {
    if Utf8.Decode(frag).None? {
      CutCharacterHidesLaterEvents(es, e, frag, later);
    } else {
      LostBehindTear(es, e, frag, later);
      assert later[1..] == [] && es + [] + [] == es;
    }
  }

  /** Whether the events appended behind the tail leave the numbering where the process left it. */
  predicate Continues(frag: seq<Byte>, e: Event, first: nat, later: seq<Event>)
    requires later != []
  {
    || frag == [] || frag == Utf8.Encode(FormatLine(e))
    || match Utf8.Decode(frag)
       case None => false
       case Some(p) =>
         var cut := if Count(p, '\t') >= 1 then [] else Renumbered(p, later[0]);
         if cut == [] then |later| >= 2 else cut[0].seqno < first + |later|
  }

  lemma FirstOpen(es: seq<Event>, frag: seq<Byte>)
    ensures NextSeqOf(Records(LogBytes(es) + frag)) == Max(NextSeqOf(es), NextSeqOf(Records(frag)))
  {
    RecordsAfterClean(es, frag);
    NextSeqConcat(es, Records(frag));
  }

  lemma WholeTail(es: seq<Event>, e: Event, frag: seq<Byte>, later: seq<Event>)
    requires frag == [] || frag == Utf8.Encode(FormatLine(e))
    ensures Records(LogBytes(es) + frag + LogBytes(later)) == Records(LogBytes(es) + frag) + later
  {
    if later == [] {
      assert LogBytes(es) + frag + LogBytes(later) == LogBytes(es) + frag;
      assert Records(LogBytes(es) + frag) + later == Records(LogBytes(es) + frag);
    } else if frag == [] {
      assert LogBytes(es) + frag == LogBytes(es);
      LogBytesAppend(es, later);
      LogRoundTrip(es);
      LogRoundTrip(es + later);
    } else {
      LogBytesOne(e);
      LogBytesAppend(es, [e]);
      LogBytesAppend(es + [e], later);
      LogRoundTrip(es + [e]);
      LogRoundTrip(es + [e] + later);
    }
  }

  lemma RenumberedAbove(e: Event, frag: seq<Byte>, later: seq<Event>)
    requires Torn(frag, e) && frag != [] && frag != Utf8.Encode(FormatLine(e)) && Utf8.Decode(frag).Some?
    requires e.seqno >= 1 && later != []
    requires var p := Utf8.Decode(frag).value; Count(p, '\t') == 0 && Renumbered(p, later[0]) != []
    ensures Renumbered(Utf8.Decode(frag).value, later[0])[0].seqno > later[0].seqno
  {
    TearMovesNumbering([], e, frag, later);
  }

  lemma NextOfOne(e: Event)
    ensures NextSeqOf([e]) == Max(1, SatAdd(e.seqno, 1))
  {
    assert [e][..0] == [];
    assert NextSeqOf([]) == 1;
  }

  lemma LargerOf(base: nat, first: nat, n: nat, v: nat)
    requires 1 <= base <= first && first + n < U64_MAX && n >= 1 && first < v
    ensures Max(base, Max(Max(1, SatAdd(v, 1)), if n == 1 then 1 else first + n)) == first + n <==> v < first + n
  {
  }

  lemma OneKept(base: nat, first: nat, n: nat, x: Event, rest: seq<Event>)
    requires 1 <= base <= first && first + n < U64_MAX && n >= 1 && first < x.seqno
    requires NextSeqOf(rest) == if n == 1 then 1 else first + n
    ensures Max(base, NextSeqOf([x] + rest)) == first + n <==> x.seqno < first + n
  {
    hide *;
    NextSeqConcat([x], rest);
    NextOfOne(x);
    LargerOf(base, first, n, x.seqno);
  }

  lemma NextOfRest(first: nat, later: seq<Event>)
    requires NumberedFrom(first, later) && later != []
    ensures NextSeqOf(later[1..]) == if |later| == 1 then 1 else first + |later|
    ensures later[0].seqno == first && first >= 1 && first + |later| < U64_MAX
  {
    RestIsNumbered(first, later);
    NextOfLater(first + 1, later[1..]);
    hide NextSeqOf;
  }

  /** The numbers of what is left behind a decodable tear, put together. */
  lemma NextBehindTear(base: nat, cut: seq<Event>, first: nat, later: seq<Event>)
    requires 1 <= base <= first && NumberedFrom(first, later) && later != [] && |cut| <= 1
    requires cut != [] ==> cut[0].seqno > later[0].seqno
    ensures Max(base, NextSeqOf(cut + later[1..])) == first + |later| <==>
      (if cut == [] then |later| >= 2 else cut[0].seqno < first + |later|)
  {
    NextOfRest(first, later);
    hide NextSeqOf, NumberedFrom;
    if cut == [] {
      assert cut + later[1..] == later[1..];
    } else {
      assert cut == [cut[0]];
      OneKept(base, first, |later|, cut[0], later[1..]);
    }
  }

  lemma ContinuesWhole(es: seq<Event>, e: Event, frag: seq<Byte>, later: seq<Event>)
    requires frag == [] || frag == Utf8.Encode(FormatLine(e))
    requires later != [] && NumberedFrom(NextSeqOf(Records(LogBytes(es) + frag)), later)
    ensures NextSeqOf(Records(LogBytes(es) + frag + LogBytes(later)))
      == NextSeqOf(Records(LogBytes(es) + frag)) + |later|
  {
    var first := NextSeqOf(Records(LogBytes(es) + frag));
    hide Records, NextSeqOf, NumberedFrom, LogBytes;
    WholeTail(es, e, frag, later);
    NextSeqConcat(Records(LogBytes(es) + frag), later);
    NextOfLater(first, later);
  }

  lemma ContinuesCut(es: seq<Event>, e: Event, frag: seq<Byte>, later: seq<Event>)
    requires Torn(frag, e) && frag != [] && frag != Utf8.Encode(FormatLine(e)) && Utf8.Decode(frag).Some?
    requires e.seqno >= 1 && later != [] && NumberedFrom(NextSeqOf(Records(LogBytes(es) + frag)), later)
    ensures
      var first, p := NextSeqOf(Records(LogBytes(es) + frag)), Utf8.Decode(frag).value;
      var cut := if Count(p, '\t') >= 1 then [] else Renumbered(p, later[0]);
      NextSeqOf(Records(LogBytes(es) + frag + LogBytes(later))) == first + |later| <==>
        (if cut == [] then |later| >= 2 else cut[0].seqno < first + |later|)
  {
    hide *;
    var first, p := NextSeqOf(Records(LogBytes(es) + frag)), Utf8.Decode(frag).value;
    var cut := if Count(p, '\t') >= 1 then [] else Renumbered(p, later[0]);
    FirstOpen(es, frag);
    LargerIs(NextSeqOf(es), NextSeqOf(Records(frag)));
    NextSeqPositive(es);
    LostBehindTear(es, e, frag, later);
    AtMostOne(p, later[0]);
    if cut != [] {
      RenumberedAbove(e, frag, later);
    }
    NextBehindTear(NextSeqOf(es), cut, first, later);
    Assoc(es, cut, later[1..]);
    NextSeqConcat(es, cut + later[1..]);
  }

  lemma LargerIs(a: nat, b: nat)
    ensures Max(a, b) >= a
  {
  }

  /**
   * The process that opened the torn log numbered `later` from the number that open gave it. The next
   * open continues that numbering exactly when the tail was empty or whole, or at least one of the
   * events behind it keeps a number that no digits run together have overtaken.
   */
  lemma NumberingContinuesIff(es: seq<Event>, e: Event, frag: seq<Byte>, later: seq<Event>)
    requires Torn(frag, e) && e.seqno >= 1 && later != []
    requires NumberedFrom(NextSeqOf(Records(LogBytes(es) + frag)), later)
    ensures var first := NextSeqOf(Records(LogBytes(es) + frag));
      NextSeqOf(Records(LogBytes(es) + frag + LogBytes(later))) == first + |later| <==> Continues(frag, e, first, later)
  {
    hide Records, NextSeqOf, Renumbered, Count, Torn, LogBytes, NumberedFrom, Utf8.Encode, Utf8.Decode, FormatLine;
    if frag == [] || frag == Utf8.Encode(FormatLine(e)) {
      ContinuesWhole(es, e, frag, later);
    } else if Utf8.Decode(frag).None? {
      FirstOpen(es, frag);
      NumbersIssuedAgain(es, e, frag, later);
    } else {
      ContinuesCut(es, e, frag, later);
    }
  }
}

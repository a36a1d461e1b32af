/** The on-disk event log (`src/store.rs`): one TSV row per event, read back line by line. */
module EventLog {
  import opened Base
  import opened Text
  import Percent
  import Utf8

  datatype Event = Event(
    seqno: U64,
    receivedAt: U64,
    kind: string,
    channelId: string,
    videoId: string,
    ts: string,
    title: string)

  // ---- one row ------------------------------------------------------------

  function Fields(e: Event): seq<string> {
    [ Dec(e.seqno), Dec(e.receivedAt), Percent.PctEncode(e.kind), Percent.PctEncode(e.channelId),
      Percent.PctEncode(e.videoId), Percent.PctEncode(e.ts), Percent.PctEncode(e.title) ]
  }

  function Row(e: Event): string { Join(Fields(e), '\t') }

  /** `format_line`. */
  function FormatLine(e: Event): string { Row(e) + "\n" }

  /** `parse_line`. */
  function ParseRow(line: string): Option<Event> {
    var p := Split(line, '\t');
    if |p| != 7 then None
    else match (ParseUint(p[0], U64_BOUND), ParseUint(p[1], U64_BOUND))
      case (Some(s), Some(r)) =>
        Some(Event(s, r, Percent.PctDecode(p[2]), Percent.PctDecode(p[3]), Percent.PctDecode(p[4]),
                   Percent.PctDecode(p[5]), Percent.PctDecode(p[6])))
      case _ => None
  }

  // ---- the file -----------------------------------------------------------

  function DropCrByte(b: seq<Byte>): seq<Byte> {
    if b != [] && b[|b| - 1] == 13 then b[..|b| - 1] else b
  }

  /** `BufReader::lines` up to the first line that is not valid UTF-8, where every reader stops. */
  function ReadLines(b: seq<Byte>): seq<string>
    decreases |b|
  {
    if b == [] then []
    else
      var i := IndexOf(b, 10);
      match Utf8.Decode(if i < |b| then DropCrByte(b[..i]) else b)
      case None => []
      case Some(l) => [l] + if i < |b| then ReadLines(b[i + 1..]) else []
  }

  function ParseAll(lines: seq<string>): seq<Event> {
    if lines == [] then []
    else
      var rest := ParseAll(lines[1..]);
      match ParseRow(lines[0]) case Some(e) => [e] + rest case None => rest
  }

  /** Every event a reader of the file sees, in file order. */
  function Records(b: seq<Byte>): seq<Event> { ParseAll(ReadLines(b)) }

  /** The file that writing `es` one after the other produces. */
  function LogBytes(es: seq<Event>): seq<Byte> {
    if es == [] then [] else Utf8.Encode(FormatLine(es[0])) + LogBytes(es[1..])
  }

  lemma {:induction false} LogBytesAppend(a: seq<Event>, b: seq<Event>)
    ensures LogBytes(a + b) == LogBytes(a) + LogBytes(b)
  {
    if a == [] {
      assert a + b == b;
    } else {
      assert (a + b)[1..] == a[1..] + b;
      LogBytesAppend(a[1..], b);
    }
  }

  lemma LogBytesOne(e: Event)
    ensures LogBytes([e]) == Utf8.Encode(FormatLine(e))
  {
    assert [e][1..] == [];
  }

  lemma {:induction false} ParseAllAppend(a: seq<string>, b: seq<string>)
    ensures ParseAll(a + b) == ParseAll(a) + ParseAll(b)
  {
    if a == [] {
      assert a + b == b;
    } else {
      assert (a + b)[1..] == a[1..] + b;
      ParseAllAppend(a[1..], b);
    }
  }

  // ---- rows hold no separators --------------------------------------------

  lemma FieldsAreClean(e: Event)
    ensures forall i :: 0 <= i < 7 ==> forall c :: c in Fields(e)[i] ==> c as int >= 0x20
  {
    Percent.EncodedIsClean(e.kind);
    Percent.EncodedIsClean(e.channelId);
    Percent.EncodedIsClean(e.videoId);
    Percent.EncodedIsClean(e.ts);
    Percent.EncodedIsClean(e.title);
    DigitsAreClean(Dec(e.seqno));
    DigitsAreClean(Dec(e.receivedAt));
  }

  lemma DigitsAreClean(d: string)
    requires AllDigits(d)
    ensures forall c :: c in d ==> c as int >= 0x20
  {
  }

  lemma {:induction false} JoinIsClean(fields: seq<string>)
    requires fields != []
    requires forall i :: 0 <= i < |fields| ==> forall c :: c in fields[i] ==> c as int >= 0x20
    ensures forall c :: c in Join(fields, '\t') ==> c == '\t' || c as int >= 0x20
  {
    if |fields| > 1 {
      JoinIsClean(fields[1..]);
    }
  }

  lemma RowIsClean(e: Event)
    ensures forall c :: c in Row(e) ==> c == '\t' || c as int >= 0x20
    ensures '\n' !in Row(e) && '\r' !in Row(e)
  {
    FieldsAreClean(e);
    JoinIsClean(Fields(e));
  }

  lemma SplitRow(e: Event)
    ensures Split(Row(e), '\t') == Fields(e)
  {
    FieldsAreClean(e);
    SplitJoin(Fields(e), '\t');
  }

  lemma RowRoundTrip(e: Event)
    ensures ParseRow(Row(e)) == Some(e)
  {
    SplitRow(e);
    ParseDec(e.seqno, U64_BOUND);
    ParseDec(e.receivedAt, U64_BOUND);
    Percent.RoundTrip(e.kind);
    Percent.RoundTrip(e.channelId);
    Percent.RoundTrip(e.videoId);
    Percent.RoundTrip(e.ts);
    Percent.RoundTrip(e.title);
  }

  predicate Ordinary(s: string) { forall c :: c in s ==> c as int >= 0x20 && c != '%' && c as int != 0x7f }

  /** The columns of a row, in their order; ordinary text stands in them as it is. */
  lemma RowLayout(e: Event)
    requires Ordinary(e.kind) && Ordinary(e.channelId) && Ordinary(e.videoId) && Ordinary(e.ts) && Ordinary(e.title)
    ensures FormatLine(e) == Dec(e.seqno) + "\t" + Dec(e.receivedAt) + "\t" + e.kind + "\t" + e.channelId + "\t"
      + e.videoId + "\t" + e.ts + "\t" + e.title + "\n"
  {
    Percent.OrdinaryIsKept(e.kind);
    Percent.OrdinaryIsKept(e.channelId);
    Percent.OrdinaryIsKept(e.videoId);
    Percent.OrdinaryIsKept(e.ts);
    Percent.OrdinaryIsKept(e.title);
    JoinSeven([Dec(e.seqno), Dec(e.receivedAt), e.kind, e.channelId, e.videoId, e.ts, e.title], '\t');
    hide Dec, Percent.PctEncode, Join;
  }

  lemma JoinSeven(f: seq<string>, c: char)
    requires |f| == 7
    ensures Join(f, c) ==
      f[0] + [c] + f[1] + [c] + f[2] + [c] + f[3] + [c] + f[4] + [c] + f[5] + [c] + f[6]
  {
    JoinThree(f[4..], c);
    JoinTwo(f[2..], c);
    JoinTwo(f, c);
  }

  lemma RowHasSixTabs(e: Event)
    ensures Count(Row(e), '\t') == 6
  {
    SplitRow(e);
    SplitCount(Row(e), '\t');
  }

  // ---- the log round trip -------------------------------------------------

  lemma ReadLinesCons(l: string, rest: seq<Byte>)
    requires '\n' !in l && '\r' !in l
    ensures ReadLines(Utf8.Encode(l + "\n") + rest) == [l] + ReadLines(rest)
  {
    Utf8.EncodeAppend(l, "\n");
    NewlineBytes();
    var b := Utf8.Encode(l + "\n") + rest;
    assert b == Utf8.Encode(l) + [10] + rest;
    Utf8.EncodeAscii(l, '\n');
    Utf8.EncodeAscii(l, '\r');
    IndexOfUnique(Utf8.Encode(l), 10, rest);
    var i := |Utf8.Encode(l)|;
    assert b[..i] == Utf8.Encode(l);
    assert b[i + 1..] == rest;
    Utf8.DecodeEncode(l);
  }

  /** A carriage return before the newline belongs to the end of the line. */
  lemma CrLfIsRead(l: string, rest: seq<Byte>)
    requires '\n' !in l
    ensures ReadLines(Utf8.Encode(l) + [13, 10] + rest) == [l] + ReadLines(rest)
  {
    var b := Utf8.Encode(l) + [13, 10] + rest;
    Utf8.EncodeAscii(l, '\n');
    var front := Utf8.Encode(l) + [13];
    assert b == front + [10] + rest;
    assert 10 !in front;
    IndexOfUnique(front, 10, rest);
    assert b[..|front|] == front;
    assert b[|front| + 1..] == rest;
    assert DropCrByte(front) == Utf8.Encode(l);
    Utf8.DecodeEncode(l);
    hide IndexOf;
  }

  lemma NewlineBytes()
    ensures Utf8.Encode("\n") == [10]
  {
    assert "\n"[1..] == "";
  }

  lemma ParseAllCons(l: string, rest: seq<string>, e: Event)
    requires ParseRow(l) == Some(e)
    ensures ParseAll([l] + rest) == [e] + ParseAll(rest)
  {
    assert ([l] + rest)[1..] == rest;
  }

  lemma RecordsFirst(e: Event, rest: seq<Byte>)
    ensures Records(Utf8.Encode(FormatLine(e)) + rest) == [e] + Records(rest)
  {
    RowIsClean(e);
    ReadLinesCons(Row(e), rest);
    RowRoundTrip(e);
    ParseAllCons(Row(e), ReadLines(rest), e);
  }

  /** A clean beginning is read in full, and whatever follows is read on its own. */
  lemma {:induction false} RecordsAfterClean(es: seq<Event>, tail: seq<Byte>)
    ensures Records(LogBytes(es) + tail) == es + Records(tail)
  {
    if es == [] {
      assert LogBytes(es) + tail == tail;
    } else {
      Assoc(Utf8.Encode(FormatLine(es[0])), LogBytes(es[1..]), tail);
      RecordsFirst(es[0], LogBytes(es[1..]) + tail);
      RecordsAfterClean(es[1..], tail);
      Uncons(es);
      Assoc([es[0]], es[1..], Records(tail));
    }
  }

  /** Any list of events, whatever their fields hold, is read back exactly. */
  lemma LogRoundTrip(es: seq<Event>)
    ensures Records(LogBytes(es)) == es
  {
    RecordsAfterClean(es, []);
    assert LogBytes(es) + [] == LogBytes(es);
    assert es + [] == es;
  }

  /** One line per event and six tabs in each: no field can forge or split a row. */
  lemma {:induction false} OneLinePerEvent(es: seq<Event>)
    ensures var ls := ReadLines(LogBytes(es));
      |ls| == |es| && forall i :: 0 <= i < |ls| ==> Count(ls[i], '\t') == 6
  {
    if es != [] {
      RowIsClean(es[0]);
      ReadLinesCons(Row(es[0]), LogBytes(es[1..]));
      RowHasSixTabs(es[0]);
      OneLinePerEvent(es[1..]);
    }
  }

  // ---- dedup keys ---------------------------------------------------------

  /** `dedup_key`. */
  function DedupKey(videoId: string, ts: string, kind: string): string {
    videoId + "|" + ts + "|" + kind
  }

  function Key(e: Event): string { DedupKey(e.videoId, e.ts, e.kind) }

  predicate IsKind(k: string) { k == "new" || k == "updated" || k == "deleted" }

  lemma LastChars(key: string, front: string, kind: string)
    requires key == front + "|" + kind
    ensures |kind| >= 3 ==> key[|key| - 1] == kind[|kind| - 1] && key[|key| - 2] == kind[|kind| - 2]
    ensures |kind| >= 4 ==> key[|key| - 3] == kind[|kind| - 3] && key[|key| - 4] == kind[|kind| - 4]
  {
  }

  /** The key is injective on what a notification can carry, whatever the timestamp contains. */
  lemma DedupKeyInjective(v: string, ts: string, k: string, v': string, ts': string, k': string)
    requires |v| == |v'| == 11 && IsKind(k) && IsKind(k')
    requires DedupKey(v, ts, k) == DedupKey(v', ts', k')
    ensures v == v' && ts == ts' && k == k'
  {
    var key := DedupKey(v, ts, k);
    assert v == key[..11] && v' == key[..11];
    LastChars(key, v + "|" + ts, k);
    LastChars(key, v' + "|" + ts', k');
    assert k == k';
    assert ts == key[12..|key| - |k| - 1] && ts' == key[12..|key| - |k'| - 1];
  }
}

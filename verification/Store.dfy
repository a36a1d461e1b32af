/** The durable event store (`src/store.rs`): the log file, the in-memory window, the ack cursor. */
module StoreSpec {
  import opened Base
  import opened EventLog
  import opened Text
  import Utf8

  const RECENT_CAP: nat := 2000
  const COMPACT_BYTES: nat := 8 * 1024 * 1024
  const COMPACT_MARGIN: nat := 1000
  const MAX_RETAINED_EVENTS: nat := 100_000

  /** What `append` is given. */
  datatype Notice = Notice(kind: string, channelId: string, videoId: string, ts: string, title: string)

  /** A store and its files: `log` is what a reader of the event file sees, `ackDisk` the ack file. */
  datatype StoreView = StoreView(
    log: seq<Event>,
    nextSeq: U64,
    recent: seq<Event>,
    seen: set<string>,
    ack: U64,
    ackDisk: U64)

  function NoticeKey(n: Notice): string { DedupKey(n.videoId, n.ts, n.kind) }

  function MakeEvent(seqno: U64, now: U64, n: Notice): Event {
    Event(seqno, now, n.kind, n.channelId, n.videoId, n.ts, n.title)
  }

  function Keys(es: seq<Event>): set<string> { set e | e in es :: Key(e) }

  lemma KeysAppend(es: seq<Event>, e: Event)
    ensures Keys(es + [e]) == Keys(es) + {Key(e)}
  {
    forall k | k in Keys(es) + {Key(e)} ensures k in Keys(es + [e]) {
      if k == Key(e) {
        assert e in es + [e];
      } else {
        var x :| x in es && Key(x) == k;
        assert x in es + [e];
      }
    }
  }

  function LastN<T>(s: seq<T>, n: nat): seq<T> { if |s| <= n then s else s[|s| - n..] }

  // ---- open ---------------------------------------------------------------

  /** One past the largest sequence number read, saturating. */
  function NextSeqOf(log: seq<Event>): U64 {
    if log == [] then 1
    else
      var n, e := NextSeqOf(log[..|log| - 1]), log[|log| - 1];
      if e.seqno >= n then SatAdd(e.seqno, 1) else n
  }

  lemma {:induction false} NextSeqAbove(log: seq<Event>, e: Event)
    requires e in log
    ensures NextSeqOf(log) >= SatAdd(e.seqno, 1)
  {
    var front, last := log[..|log| - 1], log[|log| - 1];
    if e != last {
      assert e in front;
      NextSeqAbove(front, e);
    }
  }

  lemma {:induction false} NextSeqOfNumbered(log: seq<Event>, first: nat)
    requires log != [] && first >= 1 && first + |log| < U64_BOUND
    requires forall i :: 0 <= i < |log| ==> log[i].seqno == first + i
    ensures NextSeqOf(log) == first + |log|
  {
    if |log| > 1 {
      NextSeqOfNumbered(log[..|log| - 1], first);
    } else {
      assert log[..0] == [];
    }
  }

  lemma {:induction false} NextSeqConcat(a: seq<Event>, b: seq<Event>)
    ensures NextSeqOf(a + b) == Max(NextSeqOf(a), NextSeqOf(b))
    ensures NextSeqOf(a) >= 1
  {
    if b == [] {
      assert a + b == a;
      NextSeqPositive(a);
    } else {
      var front, last := b[..|b| - 1], b[|b| - 1];
      NextSeqConcat(a, front);
      assert (a + b)[..|a + b| - 1] == a + front;
      assert (a + b)[|a + b| - 1] == last;
    }
  }

  lemma {:induction false} NextSeqPositive(a: seq<Event>)
    ensures NextSeqOf(a) >= 1
  {
    if a != [] {
      NextSeqPositive(a[..|a| - 1]);
    }
  }

  function AckOnDisk(content: Option<string>): U64 {
    match content
    case None => 0
    case Some(s) => match ParseUint(Trim(s), U64_BOUND) case Some(n) => n case None => 0
  }

  /**
   * The cursor a store opens with: the number in the ack file, white space around it aside, and zero
   * when there is no file, no number, or one that does not fit.
   */
  lemma AckMeaning(s: string, n: nat)
    ensures AckOnDisk(None) == 0
    ensures Pads(s, Dec(n)) ==> AckOnDisk(Some(s)) == if n < 0x1_0000_0000_0000_0000 then n else 0
  {
    ValDec(n);
    if Pads(s, Dec(n)) {
      TrimIff(s, Dec(n));
      NumberRead(Dec(n), U64_BOUND);
    }
    hide Dec, Trim, Pads, ParseUint;
  }

  lemma NumberRead(d: string, bound: nat)
    requires d != "" && AllDigits(d)
    ensures ParseUint(d, bound) == if Val(d) < bound then Some(Val(d)) else None
  {
    assert d[0] != '+';
    hide Val;
  }

  /** Anything else in the file counts as zero. */
  lemma AckGarbage(s: string, m: string)
    requires Pads(s, m)
    requires m == "" || m == "+" || exists i :: 0 <= i < |m| && !IsDigit(m[i]) && (i > 0 || m[i] != '+')
    ensures AckOnDisk(Some(s)) == 0
  {
    TrimIff(s, m);
    hide Trim, Pads, Val;
    if m != "" && m[0] == '+' && |m| > 1 {
      var i :| 0 <= i < |m| && !IsDigit(m[i]) && (i > 0 || m[i] != '+');
      assert m[1..][i - 1] == m[i];
    }
  }

  lemma NothingRead()
    ensures Records([]) == [] && NextSeqOf([]) == 1 && Keys([]) == {}
  {
  }

  lemma AckRoundTrip(n: U64)
    ensures AckOnDisk(Some(Dec(n))) == n
  {
    hide Dec, Trim, ParseUint;
    TrimDec(n);
    ParseDec(n, U64_BOUND);
  }

  function OpenView(log: seq<Event>, ackDisk: U64): StoreView {
    var recent := LastN(log, RECENT_CAP);
    StoreView(log, NextSeqOf(log), recent, Keys(recent), ackDisk, ackDisk)
  }

  lemma EmptyOpens()
    ensures
      var log := Records([]);
      LastN(log, RECENT_CAP) == [] && NextSeqOf(log) == 1 && Keys([]) == {} && AckOnDisk(None) == 0
  {
    NothingRead();
    AckMeaning("", 0);
  }

  // ---- append -------------------------------------------------------------

  /** Add to the window, evicting the oldest event and its key beyond the cap. */
  function Remember(v: StoreView, e: Event): StoreView {
    var recent := v.recent + [e];
    var seen := v.seen + {Key(e)};
    if |recent| > RECENT_CAP
    then v.(recent := recent[1..], seen := seen - {Key(recent[0])})
    else v.(recent := recent, seen := seen)
  }

  function AppendView(v: StoreView, n: Notice, now: U64): StoreView {
    if NoticeKey(n) in v.seen then v
    else
      var e := MakeEvent(v.nextSeq, now, n);
      Remember(v, e).(log := v.log + [e], nextSeq := WrapAdd(v.nextSeq, 1))
  }

  /** The part of a store that lives in the process. */
  function Memory(v: StoreView): StoreView { v.(log := [], ackDisk := 0) }

  // ---- reading ------------------------------------------------------------

  function MaxSeq(v: StoreView): nat { SatSub(v.nextSeq, 1) }

  function Newer(after: nat): Event -> bool { (e: Event) => e.seqno > after }

  /** The file path pushes an event before it checks the limit, so it gives at least one. */
  function FilePath(log: seq<Event>, after: nat, max: nat): seq<Event> {
    Take(Filter(Newer(after), log), Max(max, 1))
  }

  function WindowPath(recent: seq<Event>, after: nat, max: nat): seq<Event> {
    Take(Filter(Newer(after), recent), max)
  }

  predicate InWindow(v: StoreView, after: U64) {
    WrapAdd(after, 1) >= if v.recent == [] then v.nextSeq else v.recent[0].seqno
  }

  function Answer(v: StoreView, after: U64, max: nat): seq<Event> {
    if InWindow(v, after) then WindowPath(v.recent, after, max) else FilePath(v.log, after, max)
  }

  // ---- ack and compaction -------------------------------------------------

  function AckView(v: StoreView, through: U64, persisted: bool): StoreView {
    if through > v.ack then v.(ack := through, ackDisk := if persisted then through else v.ackDisk) else v
  }

  function KeepAbove(v: StoreView): nat {
    Max(SatSub(v.ack, COMPACT_MARGIN), SatSub(MaxSeq(v), MAX_RETAINED_EVENTS))
  }

  function CompactView(v: StoreView): StoreView {
    if |LogBytes(v.log)| < COMPACT_BYTES then v else v.(log := Filter(Newer(KeepAbove(v)), v.log))
  }

  /** The bytes a compaction writes: each kept line as it was read, newline-terminated. */
  function Rewrite(lines: seq<string>, keep: nat): seq<Byte> {
    if lines == [] then [] else
      (if Kept(lines[0], keep) then Utf8.Encode(lines[0]) + [10] else []) + Rewrite(lines[1..], keep)
  }

  predicate Kept(line: string, keep: nat) {
    ParseRow(line).Some? && ParseRow(line).value.seqno > keep
  }

  function Dropped(lines: seq<string>, keep: nat): nat {
    if lines == [] then 0
    else (if ParseRow(lines[0]).Some? && !Kept(lines[0], keep) then 1 else 0) + Dropped(lines[1..], keep)
  }

  lemma {:induction false} RewriteAppend(a: seq<string>, b: seq<string>, keep: nat)
    ensures Rewrite(a + b, keep) == Rewrite(a, keep) + Rewrite(b, keep)
    ensures Dropped(a + b, keep) == Dropped(a, keep) + Dropped(b, keep)
  {
    if a == [] {
      assert a + b == b;
    } else {
      assert (a + b)[1..] == a[1..] + b;
      RewriteAppend(a[1..], b, keep);
      Assoc(if Kept(a[0], keep) then Utf8.Encode(a[0]) + [10] else [], Rewrite(a[1..], keep), Rewrite(b, keep));
    }
  }

  lemma ReadFirstLine(e: Event, rest: seq<Byte>)
    ensures ReadLines(Utf8.Encode(FormatLine(e)) + rest) == [Row(e)] + ReadLines(rest)
  {
    RowIsClean(e);
    ReadLinesCons(Row(e), rest);
  }

  lemma RewriteCons(l: string, ls: seq<string>, keep: nat)
    ensures Rewrite([l] + ls, keep) ==
      if Kept(l, keep) then Utf8.Encode(l) + [10] + Rewrite(ls, keep) else Rewrite(ls, keep)
    ensures Dropped([l] + ls, keep) ==
      (if ParseRow(l).Some? && !Kept(l, keep) then 1 else 0) + Dropped(ls, keep)
  {
    assert ([l] + ls)[1..] == ls;
  }

  /** On a well-formed log, compaction writes exactly the well-formed log of the kept events. */
  lemma {:induction false} RewriteClean(es: seq<Event>, keep: nat)
    ensures Rewrite(ReadLines(LogBytes(es)), keep) == LogBytes(Filter(Newer(keep), es))
    ensures Dropped(ReadLines(LogBytes(es)), keep) == 0 ==> Filter(Newer(keep), es) == es
  {
    if es != [] {
      RewriteClean(es[1..], keep);
      ReadFirstLine(es[0], LogBytes(es[1..]));
      RewriteEvent(es[0], es[1..], ReadLines(LogBytes(es[1..])), keep);
      Uncons(es);
    }
  }

  lemma RewriteEvent(e: Event, rest: seq<Event>, ls: seq<string>, keep: nat)
    requires Rewrite(ls, keep) == LogBytes(Filter(Newer(keep), rest))
    requires Dropped(ls, keep) == 0 ==> Filter(Newer(keep), rest) == rest
    ensures Rewrite([Row(e)] + ls, keep) == LogBytes(Filter(Newer(keep), [e] + rest))
    ensures Dropped([Row(e)] + ls, keep) == 0 ==> Filter(Newer(keep), [e] + rest) == [e] + rest
  {
    hide ParseRow, Row, FormatLine;
    RewriteCons(Row(e), ls, keep);
    RowRoundTrip(e);
    FilterCons(Newer(keep), e, rest);
    KeepOne(e, Filter(Newer(keep), rest));
  }

  lemma KeepOne(e: Event, rest: seq<Event>)
    ensures LogBytes([e] + rest) == Utf8.Encode(Row(e)) + [10] + LogBytes(rest)
  {
    assert ([e] + rest)[1..] == rest;
    Utf8.EncodeAppend(Row(e), "\n");
    NewlineBytes();
  }
}

module Store {
  import opened Base
  import opened EventLog
  import opened StoreSpec
  import Text
  import Utf8

  /** What a path names and an open handle writes to. */
  class File {
    var bytes: seq<Byte>

    constructor (bytes: seq<Byte>)
      ensures this.bytes == bytes
    {
      this.bytes := bytes;
    }
  }

  /** The two files of the storage directory: the event file that its path names at the moment, and the ack file. */
  class Disk {
    var log: File
    var ack: Option<string>

    constructor (log: File, ack: Option<string>)
      ensures this.log == log && this.ack == ack
    {
      this.log := log;
      this.ack := ack;
    }
  }

  /** How the write of one line went: durably, or failing after some bytes had reached the file. */
  datatype Io = Ok | Fail(written: nat)

  /** How a compaction went: in full, not up to the rename, or up to the rename only. */
  datatype Replacing = Done | NotRenamed | NotReopened

  datatype AppendResult = Appended(seqno: U64) | Duplicate | IoError

  class Store {
    const disk: Disk
    var log: File
    var nextSeq: U64
    var recent: seq<Event>
    var seen: set<string>
    var ackThrough: U64

    ghost function Abs(): StoreView
      reads this, disk, disk.log
    {
      StoreView(Records(disk.log.bytes), nextSeq, recent, seen, ackThrough, AckOnDisk(disk.ack))
    }

    /** Every byte of the file belongs to a complete line of an event. */
    ghost predicate Clean()
      reads disk, disk.log
    {
      disk.log.bytes == LogBytes(Records(disk.log.bytes))
    }

    /** The file written to is the file read. */
    predicate Attached()
      reads this, disk
    {
      log == disk.log
    }

    /** `Store::open`. */
    constructor Open(disk: Disk)
      ensures this.disk == disk && Attached()
      ensures Abs() == OpenView(Records(disk.log.bytes), AckOnDisk(disk.ack))
      ensures disk.log.bytes == [] && disk.ack == None ==>
        nextSeq == 1 && recent == [] && seen == {} && ackThrough == 0
    {
      EmptyOpens();
      hide AckOnDisk, Records, NextSeqOf, Keys, ReadLines, ParseAll;
      var next, window := ReadWindow(ReadLines(disk.log.bytes));
      var keys := KeysOf(window);
      this.disk := disk;
      this.log := disk.log;
      this.nextSeq := next;
      this.recent := window;
      this.seen := keys;
      this.ackThrough := AckOnDisk(disk.ack);
      new;
      RecordsMeaning(disk.log.bytes);
    }

    /** The loop of `open` over the lines of the file. */
    static method ReadWindow(lines: seq<string>) returns (next: U64, window: seq<Event>)
      ensures next == NextSeqOf(ParseAll(lines))
      ensures window == LastN(ParseAll(lines), RECENT_CAP)
    {
      hide ParseRow;
      next, window := 1, [];
      for i := 0 to |lines|
        invariant next == NextSeqOf(ParseAll(lines[..i]))
        invariant window == LastN(ParseAll(lines[..i]), RECENT_CAP)
      {
        ParseNext(lines, i);
        match ParseRow(lines[i]) {
          case None =>
            NextSeqOfSame(ParseAll(lines[..i]));
          case Some(e) =>
            NextSeqOfAppend(ParseAll(lines[..i]), e);
            LastNAppend(ParseAll(lines[..i]), e);
            if e.seqno >= next {
              next := SatAdd(e.seqno, 1);
            }
            window := window + [e];
            if |window| > RECENT_CAP {
              window := window[1..];
            }
        }
      }
      assert lines[..|lines|] == lines;
    }

    /** The loop of `open` that fills the dedup set. */
    static method KeysOf(window: seq<Event>) returns (keys: set<string>)
      ensures keys == Keys(window)
    {
      keys := {};
      for i := 0 to |window|
        invariant keys == Keys(window[..i])
      {
        assert window[..i + 1] == window[..i] + [window[i]];
        KeysAppend(window[..i], window[i]);
        keys := keys + {Key(window[i])};
      }
      assert window[..|window|] == window;
    }

    /** `Store::append`, with the outcome of the write as an input. */
    method Append(n: Notice, now: U64, io: Io) returns (r: AppendResult)
      modifies this`nextSeq, this`recent, this`seen, log
      ensures NoticeKey(n) in old(seen) ==> r == Duplicate && unchanged(this) && unchanged(log)
      ensures NoticeKey(n) !in old(seen) && io.Fail? ==>
        && r == IoError && unchanged(this)
        && (var e := Event(old(nextSeq), now, n.kind, n.channelId, n.videoId, n.ts, n.title);
            var line := Utf8.Encode(FormatLine(e));
            log.bytes == old(log.bytes) + line[..Min(io.written, |line|)])
      ensures NoticeKey(n) !in old(seen) && io.Ok? ==>
        && r == Appended(old(nextSeq))
        && (var e := Event(old(nextSeq), now, n.kind, n.channelId, n.videoId, n.ts, n.title);
            log.bytes == old(log.bytes) + Utf8.Encode(FormatLine(e)))
        && Memory(Abs()) == Memory(AppendView(old(Abs()), n, now))
      ensures Attached() && old(Clean()) && io.Ok? ==> Clean() && Abs() == AppendView(old(Abs()), n, now)
    {
      hide FormatLine;
      var key := NoticeKey(n);
      if key in seen {
        return Duplicate;
      }
      var e := MakeEvent(nextSeq, now, n);
      var line := Utf8.Encode(FormatLine(e));
      match io {
        case Fail(k) =>
          log.bytes := log.bytes + line[..Min(k, |line|)];
          return IoError;
        case Ok =>
          log.bytes := log.bytes + line;
      }
      nextSeq := WrapAdd(nextSeq, 1);
      seen := seen + {key};
      recent := recent + [e];
      if |recent| > RECENT_CAP {
        var oldest := recent[0];
        recent := recent[1..];
        seen := seen - {Key(oldest)};
      }
      if Attached() && old(Clean()) {
        AppendClean(old(log.bytes), e);
      }
      return Appended(e.seqno);
    }

    /** `Store::events_after`: the window when it reaches back far enough, the file otherwise. */
    method EventsAfter(after: U64, max: nat) returns (out: seq<Event>)
      ensures out == Answer(Abs(), after, max)
    {
      var front := if recent == [] then nextSeq else recent[0].seqno;
      if WrapAdd(after, 1) >= front {
        return Take(Filter(Newer(after), recent), max);
      }
      out := ScanFile(after, max);
    }

    /** The file loop of `events_after`: it stops as soon as the limit is reached. */
    method ScanFile(after: U64, max: nat) returns (out: seq<Event>)
      ensures out == FilePath(Records(disk.log.bytes), after, max)
    {
      hide ParseRow, ParseAll, ReadLines, Filter;
      out := [];
      var lines := ReadLines(disk.log.bytes);
      FileStart(lines, after);
      for i := 0 to |lines|
        invariant out == Filter(Newer(after), ParseAll(lines[..i]))
        invariant |out| < Max(max, 1)
      {
        FileNext(lines, i, after);
        match ParseRow(lines[i]) {
          case None =>
          case Some(e) =>
            if e.seqno > after {
              out := out + [e];
              if |out| >= max {
                FilterSplit(Newer(after), lines, i + 1);
                return;
              }
            }
        }
      }
      assert lines[..|lines|] == lines;
    }

    /** `Store::set_ack`; the atomic rewrite of the ack file may fail, which is only logged. */
    method SetAck(through: U64, persisted: bool)
      modifies this`ackThrough, disk`ack
      ensures Abs() == AckView(old(Abs()), through, persisted)
      ensures ackThrough == Max(old(ackThrough), through)
      ensures disk.ack == if through > old(ackThrough) && persisted then Some(Text.Dec(through)) else old(disk.ack)
    {
      if through > ackThrough {
        ackThrough := through;
        if persisted {
          AckRoundTrip(through);
          disk.ack := Some(Text.Dec(through));
        }
      }
    }

    /**
     * `Store::maybe_compact`: nothing below the size limit, and no rewrite that drops nothing. An error
     * before or at the rename leaves the old file. When the new file cannot be opened, the handle stays
     * on the old one, which no path names any more.
     */
    method MaybeCompact(io: Replacing)
      modifies this`log, disk`log
      ensures
        var was, keep := old(disk.log.bytes), KeepAbove(old(Abs()));
        if |was| < 8 * 1024 * 1024 || io.NotRenamed? || Dropped(ReadLines(was), keep) == 0
        then unchanged(this) && unchanged(disk)
        else
          && disk.log.bytes == Rewrite(ReadLines(was), keep)
          && if io.Done? then Attached() else log == old(log) && !Attached()
      ensures old(Clean()) ==> Clean() && Abs() == if io.NotRenamed? then old(Abs()) else CompactView(old(Abs()))
    {
      if |disk.log.bytes| < COMPACT_BYTES {
        return;
      }
      var ackFloor := SatSub(ackThrough, COMPACT_MARGIN);
      var seqFloor := SatSub(SatSub(nextSeq, 1), MAX_RETAINED_EVENTS);
      var keep := Max(ackFloor, seqFloor);
      var tmp, dropped := Survivors(keep);
      ghost var es := Records(disk.log.bytes);
      if Clean() {
        RewriteClean(es, keep);
        LogRoundTrip(Filter(Newer(keep), es));
      }
      if dropped == 0 || io.NotRenamed? {
        return;
      }
      disk.log := new File(tmp);
      if io.Done? {
        log := disk.log;
      }
    }

    /** The copy loop of `maybe_compact`. */
    method Survivors(keep: nat) returns (tmp: seq<Byte>, dropped: nat)
      ensures tmp == Rewrite(ReadLines(disk.log.bytes), keep)
      ensures dropped == Dropped(ReadLines(disk.log.bytes), keep)
    {
      var lines := ReadLines(disk.log.bytes);
      tmp, dropped := [], 0;
      for i := 0 to |lines|
        invariant tmp == Rewrite(lines[..i], keep)
        invariant dropped == Dropped(lines[..i], keep)
      {
        RewriteNext(lines, i, keep);
        match ParseRow(lines[i]) {
          case None =>
          case Some(e) =>
            if e.seqno > keep {
              tmp := tmp + (Utf8.Encode(lines[i]) + [10]);
            } else {
              dropped := dropped + 1;
            }
        }
      }
      assert lines[..|lines|] == lines;
    }
  }

  // ---- loop steps ---------------------------------------------------------

  lemma ParseNext(lines: seq<string>, i: nat)
    requires i < |lines|
    ensures ParseAll(lines[..i + 1]) == ParseAll(lines[..i]) +
      match ParseRow(lines[i]) case Some(e) => [e] case None => []
  {
    hide ParseRow;
    assert lines[..i + 1] == lines[..i] + [lines[i]];
    ParseAllAppend(lines[..i], [lines[i]]);
    assert [lines[i]][1..] == [];
    assert ParseAll([]) == [];
    assert ParseAll(lines[..i]) + [] == ParseAll(lines[..i]);
  }

  lemma FileStart(lines: seq<string>, after: nat)
    ensures Filter(Newer(after), ParseAll(lines[..0])) == []
  {
  }

  lemma FileNext(lines: seq<string>, i: nat, after: nat)
    requires i < |lines|
    ensures var done := Filter(Newer(after), ParseAll(lines[..i]));
      Filter(Newer(after), ParseAll(lines[..i + 1])) ==
        match ParseRow(lines[i])
        case Some(e) => (if e.seqno > after then done + [e] else done)
        case None => done
  {
    ParseNext(lines, i);
    if ParseRow(lines[i]).Some? {
      FilterNext(Newer(after), ParseAll(lines[..i]), ParseRow(lines[i]).value);
    } else {
      assert ParseAll(lines[..i]) + [] == ParseAll(lines[..i]);
    }
  }

  lemma NextSeqOfSame(log: seq<Event>)
    ensures NextSeqOf(log + []) == NextSeqOf(log) && LastN(log + [], RECENT_CAP) == LastN(log, RECENT_CAP)
  {
    assert log + [] == log;
  }

  lemma NextSeqOfAppend(log: seq<Event>, e: Event)
    ensures NextSeqOf(log + [e]) == if e.seqno >= NextSeqOf(log) then SatAdd(e.seqno, 1) else NextSeqOf(log)
  {
    assert (log + [e])[..|log + [e]| - 1] == log;
  }

  lemma RecordsMeaning(b: seq<Byte>)
    ensures Records(b) == ParseAll(ReadLines(b))
  {
  }

  lemma LastNAppend(log: seq<Event>, e: Event)
    ensures var w := LastN(log, RECENT_CAP) + [e];
      LastN(log + [e], RECENT_CAP) == if |w| > RECENT_CAP then w[1..] else w
  {
  }

  lemma FilterNext(p: Event -> bool, es: seq<Event>, e: Event)
    ensures Filter(p, es + [e]) == if p(e) then Filter(p, es) + [e] else Filter(p, es)
  {
    FilterAppend(p, es, [e]);
    assert [e][1..] == [];
    assert Filter(p, []) == [];
  }

  /** What is filtered from the first lines is a beginning of what is filtered from all of them. */
  lemma FilterSplit(p: Event -> bool, lines: seq<string>, i: nat)
    requires i <= |lines|
    ensures Filter(p, ParseAll(lines[..i])) <= Filter(p, ParseAll(lines))
  {
    assert lines == lines[..i] + lines[i..];
    ParseAllAppend(lines[..i], lines[i..]);
    FilterAppend(p, ParseAll(lines[..i]), ParseAll(lines[i..]));
  }

  lemma RewriteNext(lines: seq<string>, i: nat, keep: nat)
    requires i < |lines|
    ensures Rewrite(lines[..i + 1], keep) ==
      Rewrite(lines[..i], keep) + if Kept(lines[i], keep) then Utf8.Encode(lines[i]) + [10] else []
    ensures Dropped(lines[..i + 1], keep) ==
      Dropped(lines[..i], keep) + if ParseRow(lines[i]).Some? && !Kept(lines[i], keep) then 1 else 0
  {
    assert lines[..i + 1] == lines[..i] + [lines[i]];
    RewriteAppend(lines[..i], [lines[i]], keep);
    RewriteCons(lines[i], [], keep);
    assert [lines[i]] + [] == [lines[i]];
    assert Rewrite([], keep) == [];
  }

  lemma AppendClean(log: seq<Byte>, e: Event)
    requires log == LogBytes(Records(log))
    ensures var next := log + Utf8.Encode(FormatLine(e));
      next == LogBytes(Records(next)) && Records(next) == Records(log) + [e]
  {
    var es := Records(log);
    LogBytesOne(e);
    LogBytesAppend(es, [e]);
    LogRoundTrip(es + [e]);
  }
}

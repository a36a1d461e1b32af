/** Runs from an empty storage directory that reach the states in which the store falls short. */
module StoreWitnesses {
  import opened Base
  import opened EventLog
  import opened StoreSpec
  import opened StoreRuns
  import opened Text
  import Notify
  import S = Store
  import Utf8

  // ---- appends only -------------------------------------------------------

  ghost predicate DistinctNotices(ns: seq<Notice>) {
    forall i, j :: 0 <= i < j < |ns| ==> NoticeKey(ns[i]) != NoticeKey(ns[j])
  }

  function Appends(ns: seq<Notice>, clock: nat -> U64): seq<Step> {
    seq(|ns|, i requires 0 <= i < |ns| => Append(ns[i], clock(i)))
  }

  /** What appends of distinct notices leave: every notice in the log and a window filled up to its cap. */
  ghost predicate Holding(w: World, ns: seq<Notice>, clock: nat -> U64) {
    && |w.hist| == |ns| < U64_BOUND
    && (forall i :: 0 <= i < |ns| ==> w.hist[i] == MakeEvent(i + 1, clock(i), ns[i]))
    && w.v.log == w.hist
    && |w.v.recent| == Min(|ns|, RECENT_CAP)
    && w.v.ack == w.v.ackDisk == 0
  }

  lemma NewNoticeIsUnseen(w: World, ns: seq<Notice>, n: Notice, clock: nat -> U64)
    requires Holding(w, ns, clock) && Inv(w.v, w.hist)
    requires DistinctNotices(ns + [n])
    ensures NoticeKey(n) !in w.v.seen
  {
    hide NoticeKey, Key;
    var all := ns + [n];
    forall e | e in w.v.recent ensures Key(e) != NoticeKey(n) {
      var i :| 0 <= i < |ns| && w.hist[i] == e;
      KeyOfNotice(ns[i], i + 1, clock(i));
      assert NoticeKey(all[i]) != NoticeKey(all[|ns|]);
    }
  }

  lemma AppendHolds(w: World, ns: seq<Notice>, n: Notice, clock: nat -> U64)
    requires Holding(w, ns, clock) && Inv(w.v, w.hist) && |ns| + 2 < U64_BOUND
    requires NoticeKey(n) !in w.v.seen
    ensures Holding(After(w, Append(n, clock(|ns|))), ns + [n], clock)
  {
    hide NoticeKey, Key, Keys, DistinctKeys, NoNearDuplicates, IsSuffix;
    WrapAddSmall(w.v.nextSeq);
  }

  lemma AppendsNext(ns: seq<Notice>, clock: nat -> U64)
    requires ns != []
    ensures var k := |ns| - 1;
      Appends(ns, clock) == Appends(ns[..k], clock) + [Append(ns[k], clock(k))]
  {
  }

  lemma LegalNext(steps: seq<Step>, s: Step)
    requires Legal(steps) && Allowed(Run(steps).v, Run(steps).hist, s)
    ensures Legal(steps + [s])
    ensures Run(steps + [s]) == After(Run(steps), s)
  {
    hide Allowed;
    var longer := steps + [s];
    assert longer[..|steps|] == steps;
    forall k | 0 <= k < |longer| ensures var w := Run(longer[..k]); Allowed(w.v, w.hist, longer[k]) {
      if k < |steps| {
        assert longer[..k] == steps[..k];
      }
    }
  }

  /** Any number of appends with distinct keys is a legal run, and it fills the window up to the cap. */
  lemma {:induction false} AppendsFillWindow(ns: seq<Notice>, clock: nat -> U64)
    requires DistinctNotices(ns) && |ns| + 1 < U64_BOUND
    ensures Legal(Appends(ns, clock))
    ensures Holding(Run(Appends(ns, clock)), ns, clock)
  {
    if ns != [] {
      var k := |ns| - 1;
      var front, last := ns[..k], ns[k];
      assert ns == front + [last];
      AppendsFillWindow(front, clock);
      AppendsNext(ns, clock);
      var steps := Appends(front, clock);
      var w := Run(steps);
      RunInv(steps);
      hide Appends, Run, Legal, Inv, NoticeKey, DistinctNotices;
      NewNoticeIsUnseen(w, front, last, clock);
      AppendHolds(w, front, last, clock);
      LegalNext(steps, Append(last, clock(k)));
    }
  }

  // ---- a supply of notices ------------------------------------------------

  /** A new video and its later versions: one notice for each timestamp. */
  function Version(video: string, i: nat): Notice { Notice("new", "", video, Dec(i), "") }

  function Versions(video: string, n: nat): seq<Notice> { seq(n, i requires 0 <= i < n => Version(video, i)) }

  function Filled(video: string, n: nat, clock: nat -> U64): seq<Step> { Appends(Versions(video, n), clock) }

  lemma TimestampOfKey(video: string, ts: string)
    ensures var key := DedupKey(video, ts, "new"); key[|video| + 1..|key| - 4] == ts
  {
  }

  lemma VersionsDiffer(video: string, i: nat, j: nat)
    requires i != j
    ensures NoticeKey(Version(video, i)) != NoticeKey(Version(video, j))
  {
    TimestampOfKey(video, Dec(i));
    TimestampOfKey(video, Dec(j));
    ValDec(i);
    ValDec(j);
    hide DedupKey, Dec, Val;
  }

  lemma FilledHolds(video: string, n: nat, clock: nat -> U64)
    requires n + 1 < U64_BOUND
    ensures var w := Run(Filled(video, n, clock));
      Legal(Filled(video, n, clock)) && Inv(w.v, w.hist) && Holding(w, Versions(video, n), clock)
  {
    var ns := Versions(video, n);
    forall i, j | 0 <= i < j < |ns| ensures NoticeKey(ns[i]) != NoticeKey(ns[j]) {
      VersionsDiffer(video, i, j);
    }
    AppendsFillWindow(ns, clock);
    RunInv(Filled(video, n, clock));
  }

  // ---- the states reached -------------------------------------------------

  /** Once more events exist than the window holds, a limit of zero gives one event to a cursor far behind. */
  lemma ZeroLimitReached(video: string, n: nat, clock: nat -> U64, after: U64)
    requires after + RECENT_CAP < n && n + 1 < U64_BOUND
    ensures var steps := Filled(video, n, clock);
      Legal(steps) && Answer(Run(steps).v, after, 0) == [MakeEvent(after + 1, clock(after), Version(video, after))]
  {
    FilledHolds(video, n, clock);
    hide Filled, Run, Legal, Inv, Version;
    ZeroLimitAnswer(Run(Filled(video, n, clock)), Versions(video, n), after, clock);
  }

  lemma ZeroLimitAnswer(w: World, ns: seq<Notice>, after: U64, clock: nat -> U64)
    requires Inv(w.v, w.hist) && Holding(w, ns, clock) && after + RECENT_CAP < |ns|
    ensures Answer(w.v, after, 0) == [MakeEvent(after + 1, clock(after), ns[after])]
  {
    InWindowMeaning(w.v, w.hist, after);
    NewerOfSuffix(w.v.log, w.hist, after);
    hide Inv, InWindow, Filter, Newer;
  }

  lemma {:induction false} LogIsLong(es: seq<Event>)
    ensures |LogBytes(es)| >= |es|
  {
    if es != [] {
      LogIsLong(es[1..]);
      NewlineIsWritten(es[0]);
    }
  }

  lemma NewlineIsWritten(e: Event)
    ensures |Utf8.Encode(FormatLine(e))| >= 1
  {
    Utf8.EncodeAppend(Row(e), "\n");
    NewlineBytes();
  }

  /** A log past the compaction size and one acknowledgement far beyond its end: the next start counts from 1. */
  lemma OverAckReached(video: string, n: nat, clock: nat -> U64, through: U64)
    requires COMPACT_BYTES <= n && n + COMPACT_MARGIN <= through
    ensures var steps := Filled(video, n, clock);
      var v := CompactView(AckView(Run(steps).v, through, true));
      Legal(steps) && Run(steps).v.nextSeq == n + 1 && OpenView(v.log, v.ackDisk).nextSeq == 1
  {
    FilledHolds(video, n, clock);
    LogIsLong(Run(Filled(video, n, clock)).v.log);
    hide Filled, Run, Legal, Inv, LogBytes, AckView, CompactView, OpenView;
    OverAckEmptiesLog(Run(Filled(video, n, clock)), through);
  }

  lemma OverAckEmptiesLog(w: World, through: U64)
    requires Inv(w.v, w.hist) && |LogBytes(w.v.log)| >= COMPACT_BYTES
    requires |w.hist| + COMPACT_MARGIN <= through
    ensures var v := CompactView(AckView(w.v, through, true));
      w.v.nextSeq == |w.hist| + 1 && OpenView(v.log, v.ackDisk).nextSeq == 1
  {
    hide LogBytes, DistinctKeys, NoNearDuplicates, Keys;
    NewerOfSuffix(w.v.log, w.hist, KeepAbove(AckView(w.v, through, true)));
    hide Filter, IsSuffix;
  }

  /** A full window and a delivery whose repeat appends an event it had already recorded. */
  lemma RepeatReached(video: string, clock: nat -> U64, io: nat -> S.Io)
    requires forall i :: io(i).Ok?
    ensures var steps := Filled(video, RECENT_CAP, clock);
      var ns := [Version(video, 0), Version(video, RECENT_CAP)];
      var u := Notify.Notified(Run(steps), ns, 2, clock, io);
      && Legal(steps)
      && u.hist == Run(steps).hist + [MakeEvent(RECENT_CAP + 1, clock(1), Version(video, RECENT_CAP))]
      && Notify.Notified(u, ns, 2, clock, io) != u
  {
    FilledHolds(video, RECENT_CAP, clock);
    FilledHolds(video, RECENT_CAP + 1, clock);
    var w := Run(Filled(video, RECENT_CAP, clock));
    var n, other := Version(video, 0), Version(video, RECENT_CAP);
    var ns := Versions(video, RECENT_CAP);
    var all := Versions(video, RECENT_CAP + 1);
    assert w.v.recent == w.hist;
    KeyOfNotice(n, 1, clock(0));
    NewNoticeIsUnseen(w, ns, other, clock);
    Notify.RedeliveryRepeats(w, n, other, clock, clock, io);
  }
}

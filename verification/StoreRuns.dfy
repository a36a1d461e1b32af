/** Whole runs of one store, against the full history of what was ever appended to it. */
module StoreRuns {
  import opened Base
  import opened EventLog
  import opened StoreSpec

  /** One lock-held operation of the running program, or a clean stop and restart. */
  datatype Step =
    | Append(n: Notice, now: U64)
    | AppendRefused
    | Ack(through: U64, persisted: bool)
    | Compact
    | Reopen

  function Next(v: StoreView, s: Step): StoreView {
    match s
    case Append(n, now) => AppendView(v, n, now)
    case AppendRefused => v
    case Ack(t, p) => AckView(v, t, p)
    case Compact => CompactView(v)
    case Reopen => OpenView(v.log, v.ackDisk)
  }

  function NextHist(v: StoreView, hist: seq<Event>, s: Step): seq<Event> {
    match s
    case Append(n, now) =>
      if NoticeKey(n) in v.seen then hist else hist + [MakeEvent(v.nextSeq, now, n)]
    case _ => hist
  }

  /** Acks stay within the compaction margin of what exists, and sequence numbers do not run out. */
  predicate Allowed(v: StoreView, hist: seq<Event>, s: Step) {
    match s
    case Append(_, _) => |hist| + 2 < U64_BOUND
    case Ack(t, _) => t < |hist| + COMPACT_MARGIN
    case _ => true
  }

  // ---- the invariant ------------------------------------------------------

  /** Number of events compaction has removed. */
  function Floor(v: StoreView, hist: seq<Event>): int { |hist| - |v.log| }

  ghost predicate Numbered(hist: seq<Event>) {
    && |hist| + 1 < U64_BOUND
    && forall i :: 0 <= i < |hist| ==> hist[i].seqno == i + 1
  }

  predicate IsSuffix<T(==)>(a: seq<T>, b: seq<T>) { |a| <= |b| && a == b[|b| - |a|..] }

  ghost predicate DistinctKeys(es: seq<Event>) {
    forall i, j :: 0 <= i < j < |es| ==> Key(es[i]) != Key(es[j])
  }

  /** No key repeats within `RECENT_CAP + 1` consecutive events of the log. */
  ghost predicate NoNearDuplicates(log: seq<Event>) {
    forall i, j :: 0 <= i < j < |log| && j - i <= RECENT_CAP ==> Key(log[i]) != Key(log[j])
  }

  ghost predicate Inv(v: StoreView, hist: seq<Event>) {
    && Numbered(hist)
    && v.nextSeq == |hist| + 1
    && IsSuffix(v.log, hist)
    && (hist != [] ==> v.log != [])
    && IsSuffix(v.recent, hist)
    && Min(RECENT_CAP, |v.log|) <= |v.recent| <= RECENT_CAP
    && v.seen == Keys(v.recent)
    && DistinctKeys(v.recent)
    && NoNearDuplicates(v.log)
    && v.ackDisk <= v.ack
    && v.ack < |hist| + COMPACT_MARGIN
  }

  lemma InitInv()
    ensures Inv(OpenView([], 0), [])
  {
  }

  // ---- append -------------------------------------------------------------

  lemma KeyInKeys(es: seq<Event>, e: Event)
    requires e in es
    ensures Key(e) in Keys(es)
  {
  }

  /** Dropping the oldest event of a duplicate-free window drops exactly its key. */
  lemma KeysOfTail(es: seq<Event>)
    requires es != [] && DistinctKeys(es)
    ensures Keys(es[1..]) == Keys(es) - {Key(es[0])}
    ensures DistinctKeys(es[1..])
  {
    hide Key;
    forall k | k in Keys(es) && k != Key(es[0]) ensures k in Keys(es[1..]) {
      var x :| x in es && Key(x) == k;
      var i :| 0 <= i < |es| && es[i] == x;
      assert es[1..][i - 1] == x;
    }
    forall k | k in Keys(es[1..]) ensures k in Keys(es) && k != Key(es[0]) {
      var x :| x in es[1..] && Key(x) == k;
      var i :| 0 <= i < |es| - 1 && es[1..][i] == x;
      assert es[i + 1] == x;
    }
  }

  lemma DistinctAppend(es: seq<Event>, e: Event)
    requires DistinctKeys(es) && Key(e) !in Keys(es)
    ensures DistinctKeys(es + [e])
  {
    forall i | 0 <= i < |es| ensures Key(es[i]) != Key(e) { KeyInKeys(es, es[i]); }
  }

  lemma SuffixAppend<T>(a: seq<T>, b: seq<T>, x: T)
    requires IsSuffix(a, b)
    ensures IsSuffix(a + [x], b + [x])
  {
  }

  lemma SuffixTail<T>(a: seq<T>, b: seq<T>)
    requires IsSuffix(a, b) && a != []
    ensures IsSuffix(a[1..], b)
  {
  }

  /** The window holds the newest part of the log, up to the cap. */
  lemma WindowCoversLog(v: StoreView, hist: seq<Event>, i: nat)
    requires Inv(v, hist)
    requires i < |v.log| && |v.log| - i <= RECENT_CAP
    ensures v.log[i] in v.recent
  {
    var k := |v.recent| - (|v.log| - i);
    assert v.recent[k] == hist[|hist| - (|v.log| - i)];
    assert v.log[i] == hist[|hist| - (|v.log| - i)];
  }

  lemma NearDuplicatesAppend(v: StoreView, hist: seq<Event>, e: Event)
    requires Inv(v, hist) && Key(e) !in v.seen
    ensures NoNearDuplicates(v.log + [e])
  {
    var log := v.log + [e];
    forall i, j | 0 <= i < j < |log| && j - i <= RECENT_CAP ensures Key(log[i]) != Key(log[j]) {
      if j == |v.log| {
        WindowCoversLog(v, hist, i);
        KeyInKeys(v.recent, v.log[i]);
      } else {
        assert log[i] == v.log[i] && log[j] == v.log[j];
      }
    }
  }

  /** Window, dedup set and eviction stay in step. */
  lemma RememberKeeps(v: StoreView, hist: seq<Event>, e: Event)
    requires Inv(v, hist) && Key(e) !in v.seen
    ensures var w := Remember(v, e);
      && IsSuffix(w.recent, hist + [e])
      && Min(RECENT_CAP, |v.log| + 1) <= |w.recent| <= RECENT_CAP
      && w.seen == Keys(w.recent)
      && DistinctKeys(w.recent)
  {
    hide Key, Keys, DistinctKeys, IsSuffix;
    var longer := v.recent + [e];
    KeysAppend(v.recent, e);
    DistinctAppend(v.recent, e);
    SuffixAppend(v.recent, hist, e);
    if |longer| > RECENT_CAP {
      KeysOfTail(longer);
      SuffixTail(longer, hist + [e]);
    }
  }

  lemma KeyOfNotice(n: Notice, seqno: U64, now: U64)
    ensures Key(MakeEvent(seqno, now, n)) == NoticeKey(n)
  {
  }

  /** The event that an append adds: the next number, the time it was received, and the fields it was given. */
  lemma AppendedEvent(v: StoreView, hist: seq<Event>, n: Notice, now: U64)
    requires Inv(v, hist) && NoticeKey(n) !in v.seen
    ensures NextHist(v, hist, Append(n, now)) ==
      hist + [Event(|hist| + 1, now, n.kind, n.channelId, n.videoId, n.ts, n.title)]
    ensures AppendView(v, n, now).log == v.log + [Event(|hist| + 1, now, n.kind, n.channelId, n.videoId, n.ts, n.title)]
  {
    hide NoticeKey, Keys, DistinctKeys, NoNearDuplicates, IsSuffix;
  }

  /**
   * A notice is a duplicate exactly when the window holds an event of the same video, timestamp and
   * kind, whatever its channel, title, number and time.
   */
  lemma DuplicateIff(v: StoreView, hist: seq<Event>, n: Notice)
    requires Inv(v, hist) && |n.videoId| == 11 && IsKind(n.kind)
    requires forall e :: e in v.recent ==> |e.videoId| == 11 && IsKind(e.kind)
    ensures NoticeKey(n) in v.seen <==>
      exists e :: e in v.recent && e.videoId == n.videoId && e.ts == n.ts && e.kind == n.kind
  {
    hide DedupKey, IsKind, DistinctKeys, NoNearDuplicates, IsSuffix, Numbered;
    if NoticeKey(n) in v.seen {
      var e :| e in v.recent && Key(e) == NoticeKey(n);
      DedupKeyInjective(e.videoId, e.ts, e.kind, n.videoId, n.ts, n.kind);
    } else {
      forall e | e in v.recent && e.videoId == n.videoId && e.ts == n.ts && e.kind == n.kind ensures false {
        KeyInKeys(v.recent, e);
      }
    }
  }

  lemma AppendKeepsInv(v: StoreView, hist: seq<Event>, n: Notice, now: U64)
    requires Inv(v, hist) && |hist| + 2 < U64_BOUND
    ensures Inv(AppendView(v, n, now), NextHist(v, hist, Append(n, now)))
  {
    hide Key, NoticeKey, Keys, DistinctKeys, NoNearDuplicates, IsSuffix;
    if NoticeKey(n) !in v.seen {
      var e := MakeEvent(v.nextSeq, now, n);
      KeyOfNotice(n, v.nextSeq, now);
      NearDuplicatesAppend(v, hist, e);
      RememberKeeps(v, hist, e);
      SuffixAppend(v.log, hist, e);
    }
  }

  // ---- compaction ---------------------------------------------------------

  /** The events of a numbered history whose number is above `k`. */
  function Above(hist: seq<Event>, k: nat): seq<Event> {
    if k <= |hist| then hist[k..] else []
  }

  lemma {:induction false} NewerFrom(hist: seq<Event>, start: nat, k: nat)
    requires Numbered(hist) && start <= |hist|
    ensures Filter(Newer(k), hist[start..]) == Above(hist, Max(k, start))
    decreases |hist| - start
  {
    if start < |hist| {
      assert hist[start..] == [hist[start]] + hist[start + 1..];
      FilterCons(Newer(k), hist[start], hist[start + 1..]);
      NewerFrom(hist, start + 1, k);
    }
  }

  lemma NewerOfSuffix(part: seq<Event>, hist: seq<Event>, k: nat)
    requires Numbered(hist) && IsSuffix(part, hist)
    ensures Filter(Newer(k), part) == Above(hist, Max(k, |hist| - |part|))
  {
    NewerFrom(hist, |hist| - |part|, k);
  }

  lemma AboveIsSuffix(hist: seq<Event>, k: nat)
    ensures IsSuffix(Above(hist, k), hist)
    ensures |Above(hist, k)| == if k <= |hist| then |hist| - k else 0
  {
  }

  lemma ShorterSuffix<T>(a: seq<T>, b: seq<T>, hist: seq<T>)
    requires IsSuffix(a, hist) && IsSuffix(b, hist) && |a| <= |b|
    ensures IsSuffix(a, b)
  {
    var d := |b| - |a|;
    assert forall i :: 0 <= i < |a| ==> b[d..][i] == hist[|hist| - |b|..][d + i];
  }

  lemma SuffixKeepsNoNear(a: seq<Event>, b: seq<Event>)
    requires IsSuffix(a, b) && NoNearDuplicates(b)
    ensures NoNearDuplicates(a)
  {
    hide Key;
    var d := |b| - |a|;
    assert forall i :: 0 <= i < |a| ==> a[i] == b[d + i];
  }

  /** Compaction cuts the log at the larger of the old floor and the new one. */
  lemma CompactedLog(v: StoreView, hist: seq<Event>)
    requires Inv(v, hist) && |LogBytes(v.log)| >= COMPACT_BYTES
    ensures CompactView(v).log == Above(hist, Max(KeepAbove(v), Floor(v, hist)))
  {
    NewerOfSuffix(v.log, hist, KeepAbove(v));
  }

  /** Both floors are below the newest event, so something is always left. */
  lemma CompactedIsShorter(v: StoreView, hist: seq<Event>)
    requires Inv(v, hist) && |LogBytes(v.log)| >= COMPACT_BYTES
    ensures var log := CompactView(v).log; IsSuffix(log, v.log) && (hist != [] ==> log != [])
  {
    CompactedLog(v, hist);
    hide CompactView, LogBytes, Keys, DistinctKeys, NoNearDuplicates, Numbered;
    var log := CompactView(v).log;
    AboveIsSuffix(hist, Max(KeepAbove(v), Floor(v, hist)));
    hide Above;
    ShorterSuffix(log, v.log, hist);
  }

  lemma SuffixOfSuffix<T>(a: seq<T>, b: seq<T>, c: seq<T>)
    requires IsSuffix(a, b) && IsSuffix(b, c)
    ensures IsSuffix(a, c)
  {
    var d := |b| - |a|;
    assert forall i :: 0 <= i < |a| ==> a[i] == b[d + i] == c[|c| - |b| + d + i];
  }

  lemma ShorterLogKeepsInv(v: StoreView, hist: seq<Event>, log: seq<Event>)
    requires Inv(v, hist) && IsSuffix(log, v.log) && (hist != [] ==> log != [])
    ensures Inv(v.(log := log), hist)
  {
    SuffixOfSuffix(log, v.log, hist);
    SuffixKeepsNoNear(log, v.log);
    assert |log| <= |v.log|;
    hide Keys, DistinctKeys, NoNearDuplicates, Numbered, IsSuffix;
  }

  lemma CompactKeepsInv(v: StoreView, hist: seq<Event>)
    requires Inv(v, hist)
    ensures Inv(CompactView(v), hist)
  {
    hide Inv, LogBytes, Filter, KeepAbove, IsSuffix;
    if |LogBytes(v.log)| >= COMPACT_BYTES {
      CompactedIsShorter(v, hist);
      ShorterLogKeepsInv(v, hist, CompactView(v).log);
    }
  }

  /** Compaction always keeps the newest event. */
  lemma CompactKeepsNewest(v: StoreView, hist: seq<Event>)
    requires Inv(v, hist) && hist != []
    ensures var log := CompactView(v).log; log != [] && log[|log| - 1] == hist[|hist| - 1]
  {
    CompactKeepsInv(v, hist);
  }

  // ---- reopening ----------------------------------------------------------

  lemma ReopenRestoresNextSeq(v: StoreView, hist: seq<Event>)
    requires Inv(v, hist)
    ensures OpenView(v.log, v.ackDisk).nextSeq == v.nextSeq
  {
    if hist != [] {
      var start := |hist| - |v.log|;
      assert forall i :: 0 <= i < |v.log| ==> v.log[i] == hist[start + i];
      NextSeqOfNumbered(v.log, start + 1);
    }
  }

  /** The reopened window is the end of the log, so it has no repeated key. */
  lemma ReopenedWindow(v: StoreView, hist: seq<Event>)
    requires IsSuffix(v.log, hist) && NoNearDuplicates(v.log)
    ensures var w := LastN(v.log, RECENT_CAP); IsSuffix(w, hist) && DistinctKeys(w) && |w| == Min(RECENT_CAP, |v.log|)
  {
    var w := LastN(v.log, RECENT_CAP);
    LastNIsSuffix(v.log, RECENT_CAP);
    hide LastN;
    SuffixOfSuffix(w, v.log, hist);
    SuffixKeepsNoNear(w, v.log);
    hide IsSuffix;
    NearIsEverywhere(w);
    hide NoNearDuplicates, DistinctKeys;
  }

  lemma LastNIsSuffix<T>(s: seq<T>, n: nat)
    ensures IsSuffix(LastN(s, n), s) && |LastN(s, n)| == Min(n, |s|)
  {
    if |s| <= n {
      assert s[0..] == s;
    }
  }

  lemma NearIsEverywhere(w: seq<Event>)
    requires NoNearDuplicates(w) && |w| <= RECENT_CAP
    ensures DistinctKeys(w)
  {
    hide Key;
  }

  lemma ReopenKeepsInv(v: StoreView, hist: seq<Event>)
    requires Inv(v, hist)
    ensures Inv(OpenView(v.log, v.ackDisk), hist)
  {
    ReopenRestoresNextSeq(v, hist);
    ReopenedWindow(v, hist);
    hide Keys, DistinctKeys, NoNearDuplicates, IsSuffix, LastN, NextSeqOf, Numbered;
  }

  // ---- runs ---------------------------------------------------------------

  lemma StepKeepsInv(v: StoreView, hist: seq<Event>, s: Step)
    requires Inv(v, hist) && Allowed(v, hist, s)
    ensures Inv(Next(v, s), NextHist(v, hist, s))
  {
    match s
    case Append(n, now) => AppendKeepsInv(v, hist, n, now);
    case AppendRefused =>
    case Ack(_, _) =>
    case Compact => CompactKeepsInv(v, hist);
    case Reopen => ReopenKeepsInv(v, hist);
  }

  /** A store, its files, and everything that was ever appended to it. */
  datatype World = World(v: StoreView, hist: seq<Event>)

  function After(w: World, s: Step): World { World(Next(w.v, s), NextHist(w.v, w.hist, s)) }

  /** What a list of steps makes of an empty storage directory. */
  function Run(steps: seq<Step>): World {
    if steps == [] then World(OpenView([], 0), [])
    else After(Run(steps[..|steps| - 1]), steps[|steps| - 1])
  }

  ghost predicate Legal(steps: seq<Step>) {
    forall k :: 0 <= k < |steps| ==> var w := Run(steps[..k]); Allowed(w.v, w.hist, steps[k])
  }

  lemma LegalPrefix(steps: seq<Step>)
    requires Legal(steps) && steps != []
    ensures Legal(steps[..|steps| - 1])
    ensures var w := Run(steps[..|steps| - 1]); Allowed(w.v, w.hist, steps[|steps| - 1])
  {
    var front := steps[..|steps| - 1];
    forall k | 0 <= k < |front| ensures var w := Run(front[..k]); Allowed(w.v, w.hist, front[k]) {
      assert front[..k] == steps[..k];
    }
  }

  lemma {:induction false} RunInv(steps: seq<Step>)
    requires Legal(steps)
    ensures Inv(Run(steps).v, Run(steps).hist)
  {
    if steps == [] {
      InitInv();
    } else {
      LegalPrefix(steps);
      RunInv(steps[..|steps| - 1]);
      var w := Run(steps[..|steps| - 1]);
      StepKeepsInv(w.v, w.hist, steps[|steps| - 1]);
    }
  }

  /** What has been appended stays in the history, whatever happens later. */
  lemma {:induction false} HistoryGrows(steps: seq<Step>, j: nat)
    requires j <= |steps|
    ensures Run(steps[..j]).hist <= Run(steps).hist
    decreases |steps|
  {
    hide Next, NoticeKey, MakeEvent;
    if j == |steps| {
      assert steps[..j] == steps;
    } else {
      var front := steps[..|steps| - 1];
      HistoryGrows(front, j);
      assert front[..j] == steps[..j];
    }
  }

  lemma {:induction false} LegalUpTo(steps: seq<Step>, j: nat)
    requires Legal(steps) && j <= |steps|
    ensures Legal(steps[..j])
    decreases |steps|
  {
    hide Allowed, Run;
    if j == |steps| {
      assert steps[..j] == steps;
    } else {
      LegalPrefix(steps);
      LegalUpTo(steps[..|steps| - 1], j);
      assert steps[..|steps| - 1][..j] == steps[..j];
    }
  }

  /**
   * Sequence numbers are never reused, renumbered or lost at the top. Between any two moments of a run
   * the history only grows, keeping every event and its number, so the largest number never falls; at
   * each moment the numbers rise by one, the log is the tail of the history, its newest event is the
   * newest ever appended, and a reopen continues where the old process stopped.
   */
  lemma SequenceNumbersNeverRegress(steps: seq<Step>, j: nat)
    requires Legal(steps) && j <= |steps|
    ensures var (v, hist) := (Run(steps).v, Run(steps).hist);
      && IsSuffix(v.log, hist)
      && (forall i :: 0 <= i < |hist| ==> hist[i].seqno == i + 1)
      && (hist != [] ==> v.log != [])
      && MaxSeq(v) == |hist|
      && OpenView(v.log, v.ackDisk).nextSeq == v.nextSeq
    ensures Run(steps[..j]).hist <= Run(steps).hist
    ensures MaxSeq(Run(steps[..j]).v) <= MaxSeq(Run(steps).v)
  {
    RunInv(steps);
    LegalUpTo(steps, j);
    RunInv(steps[..j]);
    HistoryGrows(steps, j);
    ReopenRestoresNextSeq(Run(steps).v, Run(steps).hist);
    hide Run, Legal, OpenView, DistinctKeys, NoNearDuplicates, Keys;
  }

  /** Duplicate suppression over whole runs, with evictions, compactions and shortened windows. */
  lemma DedupOverRuns(steps: seq<Step>)
    requires Legal(steps)
    ensures var v := Run(steps).v;
      && v.seen == Keys(v.recent) && DistinctKeys(v.recent)
      && Min(2000, |v.log|) <= |v.recent| <= 2000
      && forall i, j :: 0 <= i < j < |v.log| && j - i <= 2000 ==> Key(v.log[i]) != Key(v.log[j])
  {
    RunInv(steps);
  }

  // ---- what a poll returns ------------------------------------------------

  /** The first `max` events after `after` in the full history. */
  function Ideal(hist: seq<Event>, after: nat, max: nat): seq<Event> { Take(Above(hist, after), max) }

  lemma WrapAddSmall(n: U64)
    requires n + 1 < U64_BOUND
    ensures WrapAdd(n, 1) == n + 1
  {
  }

  lemma InWindowMeaning(v: StoreView, hist: seq<Event>, after: U64)
    requires Inv(v, hist) && after + 1 < U64_BOUND
    ensures InWindow(v, after) <==> after >= |hist| - |v.recent|
  {
    hide Keys, DistinctKeys, NoNearDuplicates, WrapAdd;
    WrapAddSmall(after);
    if v.recent != [] {
      assert v.recent[0] == hist[|hist| - |v.recent|];
    }
  }

  lemma WindowAnswer(v: StoreView, hist: seq<Event>, after: U64, max: nat)
    requires Inv(v, hist) && after + 1 < U64_BOUND && InWindow(v, after)
    ensures WindowPath(v.recent, after, max) == Ideal(hist, after, max)
  {
    InWindowMeaning(v, hist, after);
    NewerOfSuffix(v.recent, hist, after);
  }

  lemma FileAnswer(v: StoreView, hist: seq<Event>, after: nat, max: nat)
    requires Inv(v, hist) && max >= 1
    ensures FilePath(v.log, after, max) == Ideal(hist, Max(after, Floor(v, hist)), max)
  {
    NewerOfSuffix(v.log, hist, after);
  }

  /**
   * The window refines the file: from a cursor at or above the compaction floor both paths give the
   * ideal answer; below it the file path omits exactly the compacted events, and the window path,
   * when it serves such a cursor at all, still gives them.
   */
  lemma WindowRefinesFile(v: StoreView, hist: seq<Event>, after: U64, max: nat)
    requires Inv(v, hist) && after + 1 < U64_BOUND && max >= 1
    ensures Answer(v, after, max) ==
      Ideal(hist, if InWindow(v, after) then after else Max(after, Floor(v, hist)), max)
    ensures after >= Floor(v, hist) ==>
      && Answer(v, after, max) == Ideal(hist, after, max)
      && FilePath(v.log, after, max) == Ideal(hist, after, max)
  {
    FileAnswer(v, hist, after, max);
    if InWindow(v, after) {
      WindowAnswer(v, hist, after, max);
    }
  }

  /** At the largest cursor the addition wraps and the file path answers; nothing is newer either way. */
  lemma LargestCursor(v: StoreView, hist: seq<Event>, max: nat)
    requires Inv(v, hist)
    ensures Answer(v, U64_MAX, max) == []
  {
    FilterNone(Newer(U64_MAX), v.log);
    FilterNone(Newer(U64_MAX), v.recent);
  }

  /** A limit of zero is honoured exactly by the window path; the file path still gives one event. */
  lemma ZeroLimit(v: StoreView, hist: seq<Event>, after: U64)
    requires Inv(v, hist) && after + 1 < U64_BOUND
    ensures Answer(v, after, 0) == [] <==> InWindow(v, after)
  {
    if !InWindow(v, after) {
      InWindowMeaning(v, hist, after);
      NewerOfSuffix(v.log, hist, after);
    }
  }

  // ---- acknowledging beyond the end ---------------------------------------

  /**
   * `set_ack` does not clamp. A reopen after the next compaction continues the numbering exactly when
   * the acknowledged position is less than the compaction margin beyond the newest event.
   */
  lemma OverAckRestartsNumbering(v: StoreView, hist: seq<Event>)
    requires Inv(v.(ack := 0, ackDisk := 0), hist) && hist != []
    requires |LogBytes(v.log)| >= COMPACT_BYTES
    ensures OpenView(CompactView(v).log, v.ackDisk).nextSeq == v.nextSeq
      <==> v.ack < |hist| + 1000
  {
    var calm := v.(ack := 0, ackDisk := 0);
    if v.ack < |hist| + COMPACT_MARGIN {
      var w := v.(ackDisk := 0);
      CompactKeepsInv(w, hist);
      ReopenRestoresNextSeq(CompactView(w), hist);
    } else {
      NewerOfSuffix(v.log, hist, KeepAbove(v));
    }
  }
}

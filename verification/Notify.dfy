/** Content notifications (`src/callback.rs`): the entries of one authenticated body, appended in order. */
module Notify {
  import opened Base
  import opened EventLog
  import opened StoreSpec
  import opened StoreRuns
  import Atom
  import S = Store
  import Utf8

  /** An event belongs to the subscription it authenticated on, whatever channel the body names. */
  function NoticeOf(e: Atom.Entry, channelId: string): Notice {
    Notice(e.kind, channelId, e.videoId, e.ts, e.title)
  }

  function Notices(entries: seq<Atom.Entry>, channelId: string): (r: seq<Notice>)
    ensures |r| == |entries|
    ensures forall i :: 0 <= i < |r| ==> r[i] == NoticeOf(entries[i], channelId)
  {
    seq(|entries|, i requires 0 <= i < |entries| => NoticeOf(entries[i], channelId))
  }

  // ---- a list of appends --------------------------------------------------

  /** The first `n` appends of a list, the `i`-th made at time `clock(i)` and its write going `io(i)`. */
  function Attempts(v: StoreView, ns: seq<Notice>, n: nat, clock: nat -> U64, io: nat -> S.Io): StoreView
    requires n <= |ns|
  {
    if n == 0 then v
    else
      var u := Attempts(v, ns, n - 1, clock, io);
      if io(n - 1).Ok? then AppendView(u, ns[n - 1], clock(n - 1)) else u
  }

  /** What those appends leave in the file: nothing for a duplicate, part of a line for a failure. */
  function Written(v: StoreView, ns: seq<Notice>, n: nat, clock: nat -> U64, io: nat -> S.Io): seq<Byte>
    requires n <= |ns|
  {
    if n == 0 then []
    else
      var u := Attempts(v, ns, n - 1, clock, io);
      Written(v, ns, n - 1, clock, io) + WrittenOnce(u, ns[n - 1], clock(n - 1), io(n - 1))
  }

  function WrittenOnce(v: StoreView, n: Notice, now: U64, io: S.Io): seq<Byte> {
    if NoticeKey(n) in v.seen then []
    else
      var line := Utf8.Encode(FormatLine(MakeEvent(v.nextSeq, now, n)));
      match io case Ok => line case Fail(k) => line[..Min(k, |line|)]
  }

  lemma SameMemory(a: StoreView, b: StoreView, n: Notice, now: U64)
    requires Memory(a) == Memory(b)
    ensures Memory(AppendView(a, n, now)) == Memory(AppendView(b, n, now))
    ensures a.seen == b.seen && a.nextSeq == b.nextSeq
  {
    assert a.seen == Memory(a).seen && a.nextSeq == Memory(a).nextSeq && a.recent == Memory(a).recent;
    assert b.seen == Memory(b).seen && b.nextSeq == Memory(b).nextSeq && b.recent == Memory(b).recent;
    hide NoticeKey, MakeEvent;
  }

  lemma DuplicateIsKept(v: StoreView, n: Notice, now: U64)
    requires NoticeKey(n) in v.seen
    ensures AppendView(v, n, now) == v
  {
  }

  lemma AttemptsNone(v: StoreView, ns: seq<Notice>, clock: nat -> U64, io: nat -> S.Io)
    ensures Attempts(v, ns, 0, clock, io) == v && Written(v, ns, 0, clock, io) == []
  {
  }

  lemma AttemptsNext(v: StoreView, ns: seq<Notice>, n: nat, clock: nat -> U64, io: nat -> S.Io)
    requires n < |ns|
    ensures var u := Attempts(v, ns, n, clock, io);
      && Attempts(v, ns, n + 1, clock, io) == (if io(n).Ok? then AppendView(u, ns[n], clock(n)) else u)
      && Written(v, ns, n + 1, clock, io) == Written(v, ns, n, clock, io) + WrittenOnce(u, ns[n], clock(n), io(n))
  {
  }

  lemma {:induction false} AttemptsKeepAck(v: StoreView, ns: seq<Notice>, n: nat, clock: nat -> U64, io: nat -> S.Io)
    requires n <= |ns|
    ensures Attempts(v, ns, n, clock, io).ackDisk == v.ackDisk
  {
    if n > 0 {
      AttemptsKeepAck(v, ns, n - 1, clock, io);
    }
  }

  lemma SameStore(a: StoreView, b: StoreView)
    requires Memory(a) == Memory(b) && a.log == b.log && a.ackDisk == b.ackDisk
    ensures a == b
  {
    assert a == Memory(a).(log := a.log, ackDisk := a.ackDisk);
    assert b == Memory(b).(log := b.log, ackDisk := b.ackDisk);
  }

  lemma MemoryOnly(v: StoreView, log: seq<Event>)
    ensures Memory(v.(log := log)) == Memory(v)
  {
  }

  /**
   * `handle_notify` behind the lookup of the subscription, with the signature check and the outcome
   * of every write as inputs. The hub is told the same either way.
   */
  method HandleNotify(store: S.Store, channelId: string, body: seq<Byte>, signed: bool,
                      clock: nat -> U64, io: nat -> S.Io)
    modifies store, store.log
    ensures store.ackThrough == old(store.ackThrough) && store.log == old(store.log)
    ensures store.Attached() == old(store.Attached())
    ensures unchanged(store.disk) && (!store.Attached() ==> store.disk.log.bytes == old(store.disk.log.bytes))
    ensures !signed ==> unchanged(store) && unchanged(store.log)
    ensures signed ==>
      var ns := Notices(Atom.Entries(Utf8.Lossy(body)), channelId);
      && Memory(store.Abs()) == Memory(Attempts(old(store.Abs()), ns, |ns|, clock, io))
      && store.log.bytes == old(store.log.bytes) + Written(old(store.Abs()), ns, |ns|, clock, io)
    ensures signed && store.Attached() && old(store.Clean()) && (forall i :: io(i).Ok?) ==>
      var ns := Notices(Atom.Entries(Utf8.Lossy(body)), channelId);
      store.Clean() && store.Abs() == Attempts(old(store.Abs()), ns, |ns|, clock, io)
    ensures signed && !store.Attached() ==>
      var ns := Notices(Atom.Entries(Utf8.Lossy(body)), channelId);
      store.Abs() == Attempts(old(store.Abs()), ns, |ns|, clock, io).(log := old(store.Abs()).log)
  {
    hide *;
    if !signed {
      return;
    }
    var entries := Atom.Parse(Utf8.Lossy(body));
    AppendAll(store, entries, channelId, clock, io);
  }

  /** The loop of `handle_notify`, which goes on after a failed append. */
  method AppendAll(store: S.Store, entries: seq<Atom.Entry>, channelId: string, clock: nat -> U64, io: nat -> S.Io)
    modifies store, store.log
    ensures store.ackThrough == old(store.ackThrough) && store.log == old(store.log)
    ensures store.Attached() == old(store.Attached())
    ensures unchanged(store.disk) && (!store.Attached() ==> store.disk.log.bytes == old(store.disk.log.bytes))
    ensures var ns := Notices(entries, channelId);
      && Memory(store.Abs()) == Memory(Attempts(old(store.Abs()), ns, |ns|, clock, io))
      && store.log.bytes == old(store.log.bytes) + Written(old(store.Abs()), ns, |ns|, clock, io)
    ensures store.Attached() && old(store.Clean()) && (forall i :: io(i).Ok?) ==>
      var ns := Notices(entries, channelId);
      store.Clean() && store.Abs() == Attempts(old(store.Abs()), ns, |ns|, clock, io)
    ensures !store.Attached() ==>
      var ns := Notices(entries, channelId);
      store.Abs() == Attempts(old(store.Abs()), ns, |ns|, clock, io).(log := old(store.Abs()).log)
  {
    hide *;
    ghost var ns := Notices(entries, channelId);
    ghost var v := store.Abs();
    AttemptsNone(v, ns, clock, io);
    for i := 0 to |entries|
      invariant store.ackThrough == old(store.ackThrough) && store.log == old(store.log)
      invariant store.Attached() == old(store.Attached())
      invariant unchanged(store.disk)
      invariant !store.Attached() ==> store.disk.log.bytes == old(store.disk.log.bytes)
      invariant !store.Attached() ==> store.Abs().log == v.log && store.Abs().ackDisk == v.ackDisk
      invariant Memory(store.Abs()) == Memory(Attempts(v, ns, i, clock, io))
      invariant store.log.bytes == old(store.log.bytes) + Written(v, ns, i, clock, io)
      invariant store.Attached() && old(store.Clean()) && (forall j :: io(j).Ok?) ==>
        store.Clean() && store.Abs() == Attempts(v, ns, i, clock, io)
    {
      ghost var u := Attempts(v, ns, i, clock, io);
      AttemptsNext(v, ns, i, clock, io);
      Assoc(old(store.log.bytes), Written(v, ns, i, clock, io), WrittenOnce(u, ns[i], clock(i), io(i)));
      AppendOne(store, NoticeOf(entries[i], channelId), clock(i), io(i), u);
    }
    if !store.Attached() {
      AttemptsKeepAck(v, ns, |ns|, clock, io);
      MemoryOnly(Attempts(v, ns, |ns|, clock, io), v.log);
      SameStore(store.Abs(), Attempts(v, ns, |ns|, clock, io).(log := v.log));
    }
  }

  /** One pass of that loop, from a store whose memory is that of `u`. */
  method AppendOne(store: S.Store, n: Notice, now: U64, io: S.Io, ghost u: StoreView)
    requires Memory(store.Abs()) == Memory(u)
    modifies store, store.log
    ensures store.ackThrough == old(store.ackThrough) && store.log == old(store.log)
    ensures store.Attached() == old(store.Attached())
    ensures unchanged(store.disk) && (!store.Attached() ==> store.disk.log.bytes == old(store.disk.log.bytes))
    ensures !store.Attached() ==>
      store.Abs().log == old(store.Abs()).log && store.Abs().ackDisk == old(store.Abs()).ackDisk
    ensures Memory(store.Abs()) == Memory(if io.Ok? then AppendView(u, n, now) else u)
    ensures store.log.bytes == old(store.log.bytes) + WrittenOnce(u, n, now, io)
    ensures store.Attached() && old(store.Clean()) && io.Ok? && old(store.Abs()) == u ==>
      store.Clean() && store.Abs() == AppendView(u, n, now)
  {
    hide AppendView, NoticeKey, FormatLine, Records, AckOnDisk, LogBytes;
    SameMemory(store.Abs(), u, n, now);
    if NoticeKey(n) in u.seen {
      DuplicateIsKept(u, n, now);
      DuplicateIsKept(store.Abs(), n, now);
    }
    var _ := store.Append(n, now, io);
  }

  // ---- what a delivery adds to the history --------------------------------

  /** A world after the first `n` appends of a list, with the outcome of each write. */
  function Notified(w: World, ns: seq<Notice>, n: nat, clock: nat -> U64, io: nat -> S.Io): World
    requires n <= |ns|
  {
    if n == 0 then w else After(Notified(w, ns, n - 1, clock, io), StepOf(ns[n - 1], clock(n - 1), io(n - 1)))
  }

  function StepOf(n: Notice, now: U64, io: S.Io): Step { if io.Ok? then Append(n, now) else AppendRefused }

  lemma {:induction false} NotifiedIsAttempts(w: World, ns: seq<Notice>, n: nat, clock: nat -> U64, io: nat -> S.Io)
    requires n <= |ns|
    ensures Notified(w, ns, n, clock, io).v == Attempts(w.v, ns, n, clock, io)
  {
    if n > 0 {
      NotifiedIsAttempts(w, ns, n - 1, clock, io);
    }
  }

  lemma {:induction false} NotificationKeepsInv(w: World, ns: seq<Notice>, n: nat, clock: nat -> U64, io: nat -> S.Io)
    requires Inv(w.v, w.hist) && n <= |ns| && |w.hist| + n + 1 < U64_BOUND
    ensures var u := Notified(w, ns, n, clock, io);
      Inv(u.v, u.hist) && w.hist <= u.hist && |u.hist| <= |w.hist| + n
  {
    hide Inv, NoticeKey, MakeEvent, AppendView;
    if n > 0 {
      NotificationKeepsInv(w, ns, n - 1, clock, io);
      var u := Notified(w, ns, n - 1, clock, io);
      AppendKeepsInv(u.v, u.hist, ns[n - 1], clock(n - 1));
    }
  }

  ghost predicate Recorded(hist: seq<Event>, n: Notice) {
    exists i :: 0 <= i < |hist| && Key(hist[i]) == NoticeKey(n)
  }

  predicate Holds(e: Event, n: Notice) {
    Notice(e.kind, e.channelId, e.videoId, e.ts, e.title) == n
  }

  /** A key in the dedup set stands for an event that was really appended. */
  lemma SeenIsRecorded(w: World, n: Notice)
    requires Inv(w.v, w.hist) && NoticeKey(n) in w.v.seen
    ensures Recorded(w.hist, n)
  {
    hide Key, NoticeKey;
    var e :| e in w.v.recent && Key(e) == NoticeKey(n);
    var i :| 0 <= i < |w.v.recent| && w.v.recent[i] == e;
    assert w.hist[|w.hist| - |w.v.recent| + i] == e;
  }

  lemma StillRecorded(hist: seq<Event>, longer: seq<Event>, n: Notice)
    requires hist <= longer && Recorded(hist, n)
    ensures Recorded(longer, n)
  {
    hide Key, NoticeKey;
    var i :| 0 <= i < |hist| && Key(hist[i]) == NoticeKey(n);
    assert longer[i] == hist[i];
  }

  lemma AppendRecords(w: World, n: Notice, now: U64)
    requires Inv(w.v, w.hist)
    ensures var u := After(w, Append(n, now));
      && Recorded(u.hist, n)
      && (u.hist == w.hist || (u.hist[..|u.hist| - 1] == w.hist && Holds(u.hist[|w.hist|], n)))
  {
    var u := After(w, Append(n, now));
    if NoticeKey(n) in w.v.seen {
      SeenIsRecorded(w, n);
    } else {
      KeyOfNotice(n, w.v.nextSeq, now);
      assert u.hist[|w.hist|] == MakeEvent(w.v.nextSeq, now, n);
    }
  }

  /** Some write that succeeded carried the key of `x`. */
  ghost predicate Delivered(ns: seq<Notice>, n: nat, io: nat -> S.Io, x: Notice)
    requires n <= |ns|
  {
    exists j :: 0 <= j < n && io(j).Ok? && NoticeKey(ns[j]) == NoticeKey(x)
  }

  lemma DeliveredNext(ns: seq<Notice>, n: nat, io: nat -> S.Io, x: Notice)
    requires n < |ns|
    ensures Delivered(ns, n + 1, io, x) <==>
      Delivered(ns, n, io, x) || (io(n).Ok? && NoticeKey(ns[n]) == NoticeKey(x))
  {
    hide NoticeKey;
  }

  lemma RecordedNext(hist: seq<Event>, e: Event, x: Notice)
    ensures Recorded(hist + [e], x) <==> Recorded(hist, x) || Key(e) == NoticeKey(x)
  {
    hide Key, NoticeKey;
    var longer := hist + [e];
    if Key(e) == NoticeKey(x) {
      assert longer[|hist|] == e;
    } else if Recorded(hist, x) {
      StillRecorded(hist, longer, x);
    }
  }

  lemma HoldsKey(e: Event, n: Notice)
    requires Holds(e, n)
    ensures Key(e) == NoticeKey(n)
  {
  }

  /** One successful append records its own key and no other new one. */
  lemma AppendRecordsOnly(w: World, n: Notice, now: U64, x: Notice)
    requires Inv(w.v, w.hist)
    ensures Recorded(After(w, Append(n, now)).hist, x) <==> Recorded(w.hist, x) || NoticeKey(n) == NoticeKey(x)
  {
    var u := After(w, Append(n, now));
    AppendRecords(w, n, now);
    hide Inv, After, Recorded, Holds, NoticeKey;
    if u.hist == w.hist {
      if NoticeKey(n) == NoticeKey(x) {
        SameKeyRecorded(w.hist, n, x);
      }
    } else {
      var e := u.hist[|w.hist|];
      HoldsKey(e, n);
      assert u.hist == w.hist + [e];
      RecordedNext(w.hist, e, x);
    }
  }

  lemma SameKeyRecorded(hist: seq<Event>, n: Notice, x: Notice)
    requires NoticeKey(n) == NoticeKey(x)
    ensures Recorded(hist, n) <==> Recorded(hist, x)
  {
    hide Key, NoticeKey;
  }

  /**
   * Acknowledged is not stored: whatever writes fail, an entry is in the history after a delivery
   * exactly when it was there before, or a write that succeeded carried its key.
   */
  lemma {:induction false} StoredIff(w: World, ns: seq<Notice>, n: nat, clock: nat -> U64, io: nat -> S.Io, x: Notice)
    requires Inv(w.v, w.hist) && n <= |ns| && |w.hist| + n + 1 < U64_BOUND
    ensures Recorded(Notified(w, ns, n, clock, io).hist, x) <==> Recorded(w.hist, x) || Delivered(ns, n, io, x)
  {
    hide Inv, Recorded, NoticeKey;
    if n > 0 {
      hide Delivered;
      StoredIff(w, ns, n - 1, clock, io, x);
      NotificationKeepsInv(w, ns, n - 1, clock, io);
      DeliveredNext(ns, n - 1, io, x);
      var t := Notified(w, ns, n - 1, clock, io);
      if io(n - 1).Ok? {
        AppendRecordsOnly(t, ns[n - 1], clock(n - 1), x);
      }
      hide After;
    }
  }

  /** The events behind the first `base` are the notices with these rising indices below `n`, written and numbered. */
  ghost predicate AddedFrom(base: nat, hist: seq<Event>, from: seq<nat>, ns: seq<Notice>, n: nat,
                            clock: nat -> U64, io: nat -> S.Io)
  {
    && n <= |ns| && |hist| == base + |from|
    && (forall a :: 0 <= a < |from| ==>
          && from[a] < n && io(from[a]).Ok?
          && hist[base + a].seqno == base + a + 1 && hist[base + a].receivedAt == clock(from[a])
          && Holds(hist[base + a], ns[from[a]]))
    && (forall a, b :: 0 <= a < b < |from| ==> from[a] < from[b])
  }

  lemma AddedNext(base: nat, hist: seq<Event>, from: seq<nat>, ns: seq<Notice>, n: nat,
                  clock: nat -> U64, io: nat -> S.Io)
    requires 0 < n <= |ns| && AddedFrom(base, hist, from, ns, n - 1, clock, io)
    ensures AddedFrom(base, hist, from, ns, n, clock, io)
  {
    hide Holds;
  }

  lemma AddedOne(base: nat, hist: seq<Event>, from: seq<nat>, ns: seq<Notice>, n: nat,
                 clock: nat -> U64, io: nat -> S.Io, e: Event)
    requires 0 < n <= |ns| && AddedFrom(base, hist, from, ns, n - 1, clock, io)
    requires io(n - 1).Ok? && e.seqno == |hist| + 1 && e.receivedAt == clock(n - 1) && Holds(e, ns[n - 1])
    ensures AddedFrom(base, hist + [e], from + [n - 1], ns, n, clock, io)
  {
    hide Holds;
    var longer, all := hist + [e], from + [n - 1];
    assert forall a :: 0 <= a < |from| ==> all[a] == from[a] && longer[base + a] == hist[base + a];
    assert all[|from|] == n - 1 && longer[base + |from|] == e;
  }

  /** Where the added events come from: the notices written, each one once and in their order. */
  lemma {:induction false} AddedInOrder(w: World, ns: seq<Notice>, n: nat, clock: nat -> U64, io: nat -> S.Io)
    returns (from: seq<nat>)
    requires Inv(w.v, w.hist) && n <= |ns| && |w.hist| + n + 1 < U64_BOUND
    ensures AddedFrom(|w.hist|, Notified(w, ns, n, clock, io).hist, from, ns, n, clock, io)
  {
    from := [];
    if n > 0 {
      hide *;
      from := AddedInOrder(w, ns, n - 1, clock, io);
      NotificationKeepsInv(w, ns, n - 1, clock, io);
      var t, next := Notified(w, ns, n - 1, clock, io), ns[n - 1];
      NotifiedOne(w, ns, n, clock, io);
      if io(n - 1).Ok? && NoticeKey(next) !in t.v.seen {
        AppendedEvent(t.v, t.hist, next, clock(n - 1));
        var e := Event(|t.hist| + 1, clock(n - 1), next.kind, next.channelId, next.videoId, next.ts, next.title);
        HoldsIs(e, next);
        AddedOne(|w.hist|, t.hist, from, ns, n, clock, io, e);
        from := from + [n - 1];
      } else {
        AddedNext(|w.hist|, t.hist, from, ns, n, clock, io);
      }
    }
  }

  lemma HoldsIs(e: Event, n: Notice)
    requires e.kind == n.kind && e.channelId == n.channelId && e.videoId == n.videoId
    requires e.ts == n.ts && e.title == n.title
    ensures Holds(e, n)
  {
  }

  /** The history after one more notice. */
  lemma NotifiedOne(w: World, ns: seq<Notice>, n: nat, clock: nat -> U64, io: nat -> S.Io)
    requires 0 < n <= |ns|
    ensures var t, u, next := Notified(w, ns, n - 1, clock, io), Notified(w, ns, n, clock, io), ns[n - 1];
      if io(n - 1).Ok? && NoticeKey(next) !in t.v.seen
      then u.hist == NextHist(t.v, t.hist, Append(next, clock(n - 1)))
      else u.hist == t.hist
  {
    hide NoticeKey, AppendView, MakeEvent;
  }

  /**
   * A delivered notification, whatever writes fail: what was in the history stays; an entry of the
   * body is in it afterwards exactly when it was before or a write that succeeded carried its key; and
   * the added events are entries of the body, each one once and in their order, with the next numbers,
   * the times they were received, their own kind, video, timestamp and title, and the channel of the
   * subscription, whatever channel the body claims.
   */
  lemma NotificationIsStored(w: World, entries: seq<Atom.Entry>, channelId: string,
                             clock: nat -> U64, io: nat -> S.Io)
    returns (from: seq<nat>)
    requires Inv(w.v, w.hist) && |w.hist| + |entries| + 1 < U64_BOUND
    requires forall e :: e in entries ==> Atom.WellFormed(e)
    ensures var ns := Notices(entries, channelId);
      var u := Notified(w, ns, |ns|, clock, io);
      && w.hist <= u.hist
      && (forall i :: 0 <= i < |ns| ==>
            (Recorded(u.hist, ns[i]) <==> Recorded(w.hist, ns[i]) || Delivered(ns, |ns|, io, ns[i])))
      && |u.hist| == |w.hist| + |from|
      && (forall a :: 0 <= a < |from| ==> Stored(u.hist, |w.hist| + a, entries, from[a], channelId, clock, io))
    ensures forall a, b :: 0 <= a < b < |from| ==> from[a] < from[b]
  {
    var ns := Notices(entries, channelId);
    NotificationKeepsInv(w, ns, |ns|, clock, io);
    from := AddedInOrder(w, ns, |ns|, clock, io);
    var u := Notified(w, ns, |ns|, clock, io);
    hide Recorded, Delivered, Inv, Notified, IsKind, Atom.IsVideoId;
    forall i | 0 <= i < |ns|
      ensures Recorded(u.hist, ns[i]) <==> Recorded(w.hist, ns[i]) || Delivered(ns, |ns|, io, ns[i])
    {
      StoredIff(w, ns, |ns|, clock, io, ns[i]);
    }
    forall a | 0 <= a < |from| ensures Stored(u.hist, |w.hist| + a, entries, from[a], channelId, clock, io) {
      assert Atom.WellFormed(entries[from[a]]);
    }
  }

  /** The event at index `k` is the entry with index `i`, whose write succeeded. */
  ghost predicate Stored(hist: seq<Event>, k: nat, entries: seq<Atom.Entry>, i: nat, channelId: string,
                         clock: nat -> U64, io: nat -> S.Io)
  {
    && k < |hist| && i < |entries| && io(i).Ok?
    && hist[k].seqno == k + 1 && hist[k].receivedAt == clock(i) && hist[k].channelId == channelId
    && hist[k].kind == entries[i].kind && hist[k].videoId == entries[i].videoId
    && hist[k].ts == entries[i].ts && hist[k].title == entries[i].title
    && IsKind(hist[k].kind) && Atom.IsVideoId(hist[k].videoId)
  }

  // ---- in terms of fields -------------------------------------------------

  /** Some event of the history is about this video, timestamp and kind. */
  ghost predicate Holding(hist: seq<Event>, video: string, ts: string, kind: string) {
    exists k :: 0 <= k < |hist| && hist[k].videoId == video && hist[k].ts == ts && hist[k].kind == kind
  }

  /** What every notification adds, and so every history consists of. */
  ghost predicate Formed(hist: seq<Event>) {
    forall e :: e in hist ==> IsKind(e.kind) && Atom.IsVideoId(e.videoId)
  }

  lemma RecordedIsHolding(hist: seq<Event>, n: Notice)
    requires Formed(hist) && IsKind(n.kind) && Atom.IsVideoId(n.videoId)
    ensures Recorded(hist, n) <==> Holding(hist, n.videoId, n.ts, n.kind)
  {
    hide IsKind;
    if Recorded(hist, n) {
      var i :| 0 <= i < |hist| && Key(hist[i]) == NoticeKey(n);
      DedupKeyInjective(hist[i].videoId, hist[i].ts, hist[i].kind, n.videoId, n.ts, n.kind);
    }
  }

  /** Some entry about the same video, timestamp and kind was written. */
  ghost predicate Wrote(entries: seq<Atom.Entry>, io: nat -> S.Io, e: Atom.Entry) {
    exists j :: 0 <= j < |entries| && io(j).Ok?
      && entries[j].videoId == e.videoId && entries[j].ts == e.ts && entries[j].kind == e.kind
  }

  lemma DeliveredIsWrote(entries: seq<Atom.Entry>, channelId: string, io: nat -> S.Io, i: nat)
    requires i < |entries| && forall e :: e in entries ==> Atom.WellFormed(e)
    ensures var ns := Notices(entries, channelId); Delivered(ns, |ns|, io, ns[i]) <==> Wrote(entries, io, entries[i])
  {
    hide Atom.WellFormed, DedupKey;
    var ns, e := Notices(entries, channelId), entries[i];
    if Delivered(ns, |ns|, io, ns[i]) {
      var j :| 0 <= j < |ns| && io(j).Ok? && NoticeKey(ns[j]) == NoticeKey(ns[i]);
      Atom.EntryKeysInjective(entries[j], e);
    }
    forall j | 0 <= j < |entries|
        && entries[j].videoId == e.videoId && entries[j].ts == e.ts && entries[j].kind == e.kind
      ensures NoticeKey(ns[j]) == NoticeKey(ns[i])
    {
    }
  }

  /**
   * After a delivery, an event about the video, timestamp and kind of an entry is in the history exactly
   * when one was before or the write of such an entry succeeded; and the history stays well-formed.
   */
  lemma HeldIff(w: World, entries: seq<Atom.Entry>, channelId: string, clock: nat -> U64, io: nat -> S.Io)
    requires Inv(w.v, w.hist) && |w.hist| + |entries| + 1 < U64_BOUND && Formed(w.hist)
    requires forall e :: e in entries ==> Atom.WellFormed(e)
    ensures var hist := Notified(w, Notices(entries, channelId), |entries|, clock, io).hist;
      && Formed(hist)
      && forall e :: e in entries ==>
           (Holding(hist, e.videoId, e.ts, e.kind) <==>
            Holding(w.hist, e.videoId, e.ts, e.kind) || Wrote(entries, io, e))
  {
    var ns := Notices(entries, channelId);
    var from := NotificationIsStored(w, entries, channelId, clock, io);
    var u := Notified(w, ns, |ns|, clock, io);
    hide Inv, Notified, Recorded, Holding, Delivered, Wrote, IsKind, Atom.IsVideoId, NoticeKey;
    forall e | e in u.hist ensures IsKind(e.kind) && Atom.IsVideoId(e.videoId) {
      var k :| 0 <= k < |u.hist| && u.hist[k] == e;
      if k >= |w.hist| {
        assert Stored(u.hist, |w.hist| + (k - |w.hist|), entries, from[k - |w.hist|], channelId, clock, io);
      } else {
        assert e == w.hist[k];
      }
    }
    forall e | e in entries
      ensures Holding(u.hist, e.videoId, e.ts, e.kind) <==>
              Holding(w.hist, e.videoId, e.ts, e.kind) || Wrote(entries, io, e)
    {
      var i :| 0 <= i < |entries| && entries[i] == e;
      assert Atom.WellFormed(e);
      RecordedIsHolding(u.hist, ns[i]);
      RecordedIsHolding(w.hist, ns[i]);
      DeliveredIsWrote(entries, channelId, io, i);
    }
  }

  // ---- deliveries that repeat ---------------------------------------------

  lemma {:induction false} NotifiedGrows(w: World, ns: seq<Notice>, n: nat, clock: nat -> U64, io: nat -> S.Io)
    requires n <= |ns|
    ensures w.hist <= Notified(w, ns, n, clock, io).hist
    ensures (forall i :: 0 <= i < n && io(i).Ok? ==> NoticeKey(ns[i]) in w.v.seen) ==>
      Notified(w, ns, n, clock, io) == w
    ensures Notified(w, ns, n, clock, io).hist == w.hist ==>
      && Notified(w, ns, n, clock, io) == w
      && forall i :: 0 <= i < n && io(i).Ok? ==> NoticeKey(ns[i]) in w.v.seen
  {
    hide NoticeKey, MakeEvent, Remember;
    if n > 0 {
      NotifiedGrows(w, ns, n - 1, clock, io);
    }
  }

  /** A delivery adds nothing exactly when the dedup set holds the key of each entry whose write would succeed. */
  lemma SilentIff(w: World, ns: seq<Notice>, clock: nat -> U64, io: nat -> S.Io)
    ensures Notified(w, ns, |ns|, clock, io) == w <==>
      (forall i :: 0 <= i < |ns| && io(i).Ok? ==> NoticeKey(ns[i]) in w.v.seen)
  {
    NotifiedGrows(w, ns, |ns|, clock, io);
  }

  lemma {:induction false} KeysAreKept(w: World, ns: seq<Notice>, n: nat, clock: nat -> U64, io: nat -> S.Io)
    requires n <= |ns| && |w.v.recent| + n <= RECENT_CAP
    ensures var u := Notified(w, ns, n, clock, io);
      && |u.v.recent| <= |w.v.recent| + n
      && forall i :: 0 <= i < n && io(i).Ok? ==> NoticeKey(ns[i]) in u.v.seen
  {
    hide NoticeKey;
    if n > 0 {
      KeysAreKept(w, ns, n - 1, clock, io);
      KeyOfNotice(ns[n - 1], Notified(w, ns, n - 1, clock, io).v.nextSeq, clock(n - 1));
    }
  }

  /**
   * While the window has room for a delivery, a repeat of it adds nothing but what failed to be
   * written the first time.
   */
  lemma RedeliveryIsSilent(w: World, ns: seq<Notice>, clock: nat -> U64, io: nat -> S.Io,
                           again: nat -> U64, io2: nat -> S.Io)
    requires |w.v.recent| + |ns| <= RECENT_CAP
    requires forall i :: 0 <= i < |ns| && io2(i).Ok? ==> io(i).Ok?
    ensures var u := Notified(w, ns, |ns|, clock, io); Notified(u, ns, |ns|, again, io2) == u
  {
    KeysAreKept(w, ns, |ns|, clock, io);
    SilentIff(Notified(w, ns, |ns|, clock, io), ns, again, io2);
  }

  /**
   * With a full window it is not enough that the first delivery was deduplicated: an entry equal to
   * the oldest remembered event is suppressed, a second entry evicts that event, and the repeat of
   * the same delivery then appends the first entry after all.
   */
  lemma RedeliveryRepeats(w: World, n: Notice, other: Notice, clock: nat -> U64, again: nat -> U64, io: nat -> S.Io)
    requires Inv(w.v, w.hist) && |w.v.recent| == RECENT_CAP && forall i :: io(i).Ok?
    requires NoticeKey(n) == Key(w.v.recent[0]) && NoticeKey(other) !in w.v.seen
    ensures var ns := [n, other];
      var u := Notified(w, ns, 2, clock, io);
      && u.hist == w.hist + [MakeEvent(w.v.nextSeq, clock(1), other)]
      && Notified(u, ns, 2, again, io) != u
  {
    var ns := [n, other];
    KeyInKeys(w.v.recent, w.v.recent[0]);
    hide Inv, NoticeKey, Key;
    assert io(0).Ok? && io(1).Ok?;
    var one := Notified(w, ns, 1, clock, io);
    assert Notified(w, ns, 0, clock, io) == w;
    assert one == w;
    var u := Notified(w, ns, 2, clock, io);
    KeyOfNotice(other, w.v.nextSeq, clock(1));
    assert (w.v.recent + [MakeEvent(w.v.nextSeq, clock(1), other)])[0] == w.v.recent[0];
    assert NoticeKey(ns[0]) !in u.v.seen;
    SilentIff(u, ns, again, io);
  }

  // ---- a file that no path names ------------------------------------------

  /** What a store shows whose appends go to a file that no path names. */
  function Detached(w: World, ns: seq<Notice>, clock: nat -> U64, io: nat -> S.Io): StoreView {
    Notified(w, ns, |ns|, clock, io).v.(log := w.v.log)
  }

  /**
   * After a compaction that could not reopen its file, polls from within the window are still served in
   * full; all others get what had been appended before.
   */
  lemma DetachedAnswers(w: World, ns: seq<Notice>, clock: nat -> U64, io: nat -> S.Io, after: U64, max: nat)
    requires Inv(w.v, w.hist) && |w.hist| + |ns| + 1 < U64_BOUND && after + 1 < U64_BOUND && max >= 1
    ensures var (u, v) := (Notified(w, ns, |ns|, clock, io), Detached(w, ns, clock, io));
      Answer(v, after, max) ==
        if InWindow(v, after) then Ideal(u.hist, after, max) else Ideal(w.hist, Max(after, Floor(w.v, w.hist)), max)
  {
    var u := Notified(w, ns, |ns|, clock, io);
    NotificationKeepsInv(w, ns, |ns|, clock, io);
    FileAnswer(w.v, w.hist, after, max);
    if InWindow(u.v, after) {
      WindowAnswer(u.v, u.hist, after, max);
    }
    hide Inv, Notified, Ideal, FilePath, WindowPath, WrapAdd;
  }

  /**
   * A restart then forgets every event appended since and issues its number again: the numbering
   * continues exactly when nothing was appended.
   */
  lemma DetachedNumbering(w: World, ns: seq<Notice>, clock: nat -> U64, io: nat -> S.Io)
    requires Inv(w.v, w.hist) && |w.hist| + |ns| + 1 < U64_BOUND
    ensures var v := Detached(w, ns, clock, io);
      && OpenView(v.log, v.ackDisk) == OpenView(w.v.log, w.v.ackDisk)
      && OpenView(v.log, v.ackDisk).nextSeq == |w.hist| + 1
      && (OpenView(v.log, v.ackDisk).nextSeq == v.nextSeq <==> Notified(w, ns, |ns|, clock, io) == w)
  {
    NotificationKeepsInv(w, ns, |ns|, clock, io);
    NotifiedGrows(w, ns, |ns|, clock, io);
    NotifiedIsAttempts(w, ns, |ns|, clock, io);
    AttemptsKeepAck(w.v, ns, |ns|, clock, io);
    ReopenRestoresNextSeq(w.v, w.hist);
    hide Notified, Attempts, OpenView, Keys, DistinctKeys, NoNearDuplicates, IsSuffix;
  }
}

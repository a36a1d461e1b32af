/** From the bytes of a feed to the events of the history. */
module FeedToHistory {
  import opened AtomFeed
  import opened AtomParts
  import opened AtomRoundTrip
  import opened Base
  import opened EventLog
  import opened StoreRuns
  import opened StoreSpec
  import Atom
  import AtomDeletions
  import Notify
  import S = Store
  import Utf8

  /** The timestamp of an entry element: when it was updated, or else when it was published. */
  function Stamp(it: Item): string {
    if it.updated.Some? then it.updated.value else if it.published.Some? then it.published.value else ""
  }

  function Kind(it: Item): string {
    if it.published.Some? && it.updated.Some? && it.published.value != it.updated.value then "updated" else "new"
  }

  /** These are the fields that this part of a feed writes. */
  predicate Writes(p: Part, kind: string, video: string, ts: string, title: string) {
    match p
    case Deleted(g) => kind == "deleted" && video == g.video && ts == "" && title == ""
    case Published(it) =>
      && kind == Kind(it) && video == it.video && ts == Stamp(it)
      && title == if it.title.Some? then it.title.value.text else ""
    case Other(_) => false
  }

  ghost predicate Yields(p: Part, e: Atom.Entry) { Writes(p, e.kind, e.videoId, e.ts, e.title) }

  /** The event carries the fields of some part of the feed. */
  ghost predicate Told(ps: seq<Part>, e: Event) {
    exists i :: 0 <= i < |ps| && Writes(ps[i], e.kind, e.videoId, e.ts, e.title)
  }

  /** The history holds an event about the video, timestamp and kind of this part. */
  ghost predicate Kept(hist: seq<Event>, p: Part) {
    match p
    case Deleted(g) => Notify.Holding(hist, g.video, "", "deleted")
    case Published(it) => Notify.Holding(hist, it.video, Stamp(it), Kind(it))
    case Other(_) => true
  }

  lemma GoneYields(p: Part)
    requires p.Deleted?
    ensures Yields(p, AtomDeletions.GoneEntry(p.g))
  {
  }

  lemma ItemYields(p: Part)
    requires p.Published?
    ensures Yields(p, Expected(p.it))
  {
  }

  lemma {:induction false} YieldedByPart(ps: seq<Part>, e: Atom.Entry)
    requires e in DeletedIn(ps) + PublishedIn(ps)
    ensures exists i :: 0 <= i < |ps| && Yields(ps[i], e)
  {
    hide Yields, Expected, AtomDeletions.GoneEntry;
    if ps[0].Deleted? && e == AtomDeletions.GoneEntry(ps[0].g) {
      GoneYields(ps[0]);
    } else if ps[0].Published? && e == Expected(ps[0].it) {
      ItemYields(ps[0]);
    } else {
      YieldedByPart(ps[1..], e);
      var i :| 0 <= i < |ps| - 1 && Yields(ps[1..][i], e);
      assert ps[i + 1] == ps[1..][i];
    }
  }

  lemma {:induction false} PartIsYielded(ps: seq<Part>, i: nat)
    requires i < |ps|
    ensures ps[i].Deleted? ==> AtomDeletions.GoneEntry(ps[i].g) in DeletedIn(ps)
    ensures ps[i].Published? ==> Expected(ps[i].it) in PublishedIn(ps)
  {
    hide Expected, AtomDeletions.GoneEntry;
    if i > 0 {
      PartIsYielded(ps[1..], i - 1);
    }
  }

  lemma KeptBy(hist: seq<Event>, p: Part)
    requires p.Deleted? ==> var e := AtomDeletions.GoneEntry(p.g); Notify.Holding(hist, e.videoId, e.ts, e.kind)
    requires p.Published? ==> var e := Expected(p.it); Notify.Holding(hist, e.videoId, e.ts, e.kind)
    ensures Kept(hist, p)
  {
    hide Notify.Holding;
  }

  /**
   * A delivered feed, laid out in any way, whose writes all succeed: everything it tells is in the
   * history afterwards, and each event it adds has the kind, the video, the timestamp and the unescaped
   * title of one of its parts, the channel of the subscription, the next number and the time it came in.
   */
  lemma FeedIsStored(w: World, gap: string, ps: seq<Part>, channelId: string, clock: nat -> U64, io: nat -> S.Io)
    requires Inv(w.v, w.hist) && Notify.Formed(w.hist)
    requires '<' !in gap && PartsOk(ps) && |w.hist| + |DeletedIn(ps) + PublishedIn(ps)| + 1 < U64_BOUND
    requires forall i :: io(i).Ok?
    ensures var body := Utf8.Encode(gap + Render(FeedToks(ps)));
      var ns := Notify.Notices(Atom.Entries(Utf8.Lossy(body)), channelId);
      var hist := Notify.Notified(w, ns, |ns|, clock, io).hist;
      && w.hist <= hist
      && (forall i :: 0 <= i < |ps| ==> Kept(hist, ps[i]))
      && (forall k :: |w.hist| <= k < |hist| ==>
            Told(ps, hist[k]) && hist[k].channelId == channelId && hist[k].seqno == k + 1)
  {
    hide *;
    ScansTo(gap, ps);
    PartsAreStored(w, ps, channelId, clock, io);
  }

  lemma ScansTo(gap: string, ps: seq<Part>)
    requires '<' !in gap && PartsOk(ps)
    ensures Atom.Entries(Utf8.Lossy(Utf8.Encode(gap + Render(FeedToks(ps))))) == DeletedIn(ps) + PublishedIn(ps)
    ensures forall e :: e in DeletedIn(ps) + PublishedIn(ps) ==> Atom.WellFormed(e)
  {
    hide *;
    Utf8.LossyEncode(gap + Render(FeedToks(ps)));
    FeedRoundTrip(gap, ps);
    var _ := Atom.Entries(gap + Render(FeedToks(ps)));
  }

  lemma PartsAreStored(w: World, ps: seq<Part>, channelId: string, clock: nat -> U64, io: nat -> S.Io)
    requires Inv(w.v, w.hist) && Notify.Formed(w.hist)
    requires |w.hist| + |DeletedIn(ps) + PublishedIn(ps)| + 1 < U64_BOUND
    requires forall e :: e in DeletedIn(ps) + PublishedIn(ps) ==> Atom.WellFormed(e)
    requires forall i :: io(i).Ok?
    ensures var ns := Notify.Notices(DeletedIn(ps) + PublishedIn(ps), channelId);
      var hist := Notify.Notified(w, ns, |ns|, clock, io).hist;
      && w.hist <= hist
      && (forall i :: 0 <= i < |ps| ==> Kept(hist, ps[i]))
      && (forall k :: |w.hist| <= k < |hist| ==>
            Told(ps, hist[k]) && hist[k].channelId == channelId && hist[k].seqno == k + 1)
  {
    var entries := DeletedIn(ps) + PublishedIn(ps);
    hide *;
    var from := Notify.NotificationIsStored(w, entries, channelId, clock, io);
    HeldAll(w, entries, channelId, clock, io);
    var hist := Notify.Notified(w, Notify.Notices(entries, channelId), |entries|, clock, io).hist;
    forall i | 0 <= i < |ps| ensures Kept(hist, ps[i]) {
      PartIsYielded(ps, i);
      KeptBy(hist, ps[i]);
    }
    forall k | |w.hist| <= k < |hist|
      ensures Told(ps, hist[k]) && hist[k].channelId == channelId && hist[k].seqno == k + 1
    {
      var a := k - |w.hist|;
      assert Notify.Stored(hist, |w.hist| + a, entries, from[a], channelId, clock, io);
      ToldBy(hist, k, entries, from[a], channelId, clock, io, ps);
    }
  }

  lemma ToldBy(hist: seq<Event>, k: nat, entries: seq<Atom.Entry>, i: nat, channelId: string,
               clock: nat -> U64, io: nat -> S.Io, ps: seq<Part>)
    requires Notify.Stored(hist, k, entries, i, channelId, clock, io) && entries == DeletedIn(ps) + PublishedIn(ps)
    ensures k < |hist| && Told(ps, hist[k]) && hist[k].channelId == channelId && hist[k].seqno == k + 1
  {
    assert entries[i] in entries;
    YieldedByPart(ps, entries[i]);
    hide Writes, DeletedIn, PublishedIn;
  }

  /** If all its writes succeed, every entry of a delivery is in the history afterwards. */
  lemma HeldAll(w: World, entries: seq<Atom.Entry>, channelId: string, clock: nat -> U64, io: nat -> S.Io)
    requires Inv(w.v, w.hist) && Notify.Formed(w.hist) && |w.hist| + |entries| + 1 < U64_BOUND
    requires (forall e :: e in entries ==> Atom.WellFormed(e)) && forall i :: io(i).Ok?
    ensures var hist := Notify.Notified(w, Notify.Notices(entries, channelId), |entries|, clock, io).hist;
      forall e :: e in entries ==> Notify.Holding(hist, e.videoId, e.ts, e.kind)
  {
    Notify.HeldIff(w, entries, channelId, clock, io);
    hide Inv, Notify.Formed, Notify.Notified, Notify.Holding, Atom.WellFormed;
    forall e | e in entries ensures Notify.Wrote(entries, io, e) {
      var j :| 0 <= j < |entries| && entries[j] == e;
      assert io(j).Ok?;
    }
  }
}

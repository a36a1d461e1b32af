/** End to end: what a polling consumer has received after any run of the store. */
module Delivery {
  import opened Base
  import opened EventLog
  import opened StoreSpec
  import opened StoreRuns

  /** The consumer's durable state beside the store's: its cursor and everything it was handed. */
  datatype Party = Party(w: World, cursor: nat, got: seq<Event>)

  datatype Move = Server(s: Step) | Poll(max: nat)

  /** Polling advances the cursor to the last number received. */
  function Polled(p: Party, max: nat): Party
    requires p.cursor < U64_BOUND
  {
    var batch := Answer(p.w.v, p.cursor, max);
    if batch == [] then p else p.(cursor := batch[|batch| - 1].seqno, got := p.got + batch)
  }

  function Moved(p: Party, m: Move): Party
    requires p.cursor < U64_BOUND
  {
    match m
    case Server(s) => p.(w := After(p.w, s))
    case Poll(max) => Polled(p, max)
  }

  /**
   * The consumer asks for at least one event, acks at most its cursor, and is no further behind than
   * the retention floor when a compaction runs.
   */
  predicate Fair(p: Party, m: Move) {
    match m
    case Poll(max) => max >= 1
    case Server(Ack(t, _)) => t <= p.cursor
    case Server(Compact) => |p.w.hist| <= p.cursor + MAX_RETAINED_EVENTS
    case Server(s) => Allowed(p.w.v, p.w.hist, s)
  }

  ghost predicate Sound(p: Party) {
    && Inv(p.w.v, p.w.hist)
    && Floor(p.w.v, p.w.hist) <= p.cursor <= |p.w.hist|
    && p.w.v.ack <= p.cursor
    && p.got == p.w.hist[..p.cursor]
  }

  const START: Party := Party(World(OpenView([], 0), []), 0, [])

  /** A store opened on an empty directory is where every run starts. */
  lemma EmptyDirectory()
    ensures OpenView(Records([]), AckOnDisk(None)) == START.w.v == Run([]).v
    ensures START.w.v.nextSeq == 1 && START.w.v.ack == START.w.v.ackDisk == 0
    ensures START.w.v.log == START.w.v.recent == [] && START.w.v.seen == {}
  {
    NothingRead();
    AckMeaning("", 0);
  }

  // ---- one move -----------------------------------------------------------

  lemma SoundFacts(p: Party)
    requires Sound(p)
    ensures Inv(p.w.v, p.w.hist) && Numbered(p.w.hist)
    ensures Floor(p.w.v, p.w.hist) <= p.cursor <= |p.w.hist| && p.cursor + 1 < U64_BOUND
  {
  }

  lemma PollGivesNext(p: Party, max: nat)
    requires Sound(p) && max >= 1
    ensures Answer(p.w.v, p.cursor, max) == p.w.hist[p.cursor..Min(|p.w.hist|, p.cursor + max)]
  {
    SoundFacts(p);
    hide Sound, Inv, Numbered, Answer, FilePath, InWindow, Ideal;
    WindowRefinesFile(p.w.v, p.w.hist, p.cursor, max);
    IdealIsSlice(p.w.hist, p.cursor, max);
  }

  lemma IdealIsSlice(hist: seq<Event>, k: nat, max: nat)
    requires k <= |hist|
    ensures Ideal(hist, k, max) == hist[k..Min(|hist|, k + max)]
  {
    if k + max <= |hist| {
      assert hist[k..][..max] == hist[k..k + max];
    }
  }

  lemma SoundFurther(p: Party, q: Party)
    requires Sound(p) && q.w == p.w && p.cursor <= q.cursor <= |p.w.hist| && q.got == p.w.hist[..q.cursor]
    ensures Sound(q)
  {
    hide Inv;
  }

  lemma PollKeepsSound(p: Party, max: nat)
    requires Sound(p) && max >= 1
    ensures Sound(Polled(p, max))
    ensures Polled(p, max).cursor == Min(|p.w.hist|, p.cursor + max)
  {
    SoundFacts(p);
    var hist, to := p.w.hist, Min(|p.w.hist|, p.cursor + max);
    assert p.got == hist[..p.cursor];
    hide Sound, Inv, Numbered, Answer, Floor;
    PollGivesNext(p, max);
    LastOfSlice(hist, p.cursor, to);
    SoundFurther(p, Polled(p, max));
  }

  lemma LastOfSlice(hist: seq<Event>, from: nat, to: nat)
    requires Numbered(hist) && from <= to <= |hist|
    ensures from < to ==> hist[from..to][to - from - 1].seqno == to
    ensures hist[..from] + hist[from..to] == hist[..to]
  {
  }

  lemma FloorAfterServer(p: Party, s: Step)
    requires Sound(p) && Fair(p, Server(s))
    ensures var q := After(p.w, s); Floor(q.v, q.hist) <= p.cursor && q.v.ack <= p.cursor
    ensures p.w.hist <= NextHist(p.w.v, p.w.hist, s)
  {
    var v, hist := p.w.v, p.w.hist;
    match s
    case Append(_, _) =>
    case AppendRefused =>
    case Ack(_, _) =>
    case Reopen =>
    case Compact =>
      if |LogBytes(v.log)| >= COMPACT_BYTES {
        CompactedLog(v, hist);
        AboveIsSuffix(hist, Max(KeepAbove(v), Floor(v, hist)));
      }
  }

  lemma MoveKeepsSound(p: Party, m: Move)
    requires Sound(p) && Fair(p, m)
    ensures Sound(Moved(p, m))
  {
    hide Polled, Next, NextHist, Numbered;
    match m
    case Poll(max) =>
      hide Inv;
      PollKeepsSound(p, max);
    case Server(s) =>
      FairIsAllowed(p, s);
      FloorAfterServer(p, s);
      StepKeepsInv(p.w.v, p.w.hist, s);
      hide Inv;
      PrefixPrefix(p.w.hist, NextHist(p.w.v, p.w.hist, s), p.cursor);
  }

  lemma FairIsAllowed(p: Party, s: Step)
    requires p.cursor <= |p.w.hist| && Fair(p, Server(s))
    ensures Allowed(p.w.v, p.w.hist, s)
  {
  }

  lemma PrefixPrefix<T>(a: seq<T>, b: seq<T>, k: nat)
    requires a <= b && k <= |a|
    ensures a[..k] == b[..k]
  {
  }

  // ---- whole runs ---------------------------------------------------------

  /** `parties` is a run: it starts with an empty directory and a consumer that has seen nothing. */
  ghost predicate IsRun(parties: seq<Party>, moves: seq<Move>) {
    && |parties| == |moves| + 1
    && parties[0] == START
    && forall k :: 0 <= k < |moves| ==>
         parties[k].cursor < U64_BOUND && Fair(parties[k], moves[k]) && parties[k + 1] == Moved(parties[k], moves[k])
  }

  lemma {:induction false} RunIsSound(parties: seq<Party>, moves: seq<Move>, k: nat)
    requires IsRun(parties, moves) && k < |parties|
    ensures Sound(parties[k])
  {
    if k > 0 {
      RunIsSound(parties, moves, k - 1);
      MoveKeepsSound(parties[k - 1], moves[k - 1]);
    }
  }

  /**
   * Exactly once, in order: at every moment of every run of appends, refused appends, acks,
   * compactions, reopenings and polls, what the consumer holds is the appended history up to its
   * cursor, with no gap and no repeat.
   */
  lemma DeliveredExactly(parties: seq<Party>, moves: seq<Move>, k: nat)
    requires IsRun(parties, moves) && k < |parties|
    ensures parties[k].cursor <= |parties[k].w.hist|
    ensures parties[k].got == parties[k].w.hist[..parties[k].cursor]
  {
    RunIsSound(parties, moves, k);
  }

  /** Nothing is withheld: a poll made at any moment of a run closes the gap by its whole limit. */
  lemma PollCatchesUp(parties: seq<Party>, moves: seq<Move>, k: nat, max: nat)
    requires IsRun(parties, moves) && k < |parties| && max >= 1
    requires parties[k].cursor < U64_BOUND
    ensures var q := Polled(parties[k], max);
      && |q.got| == Min(|parties[k].w.hist|, |parties[k].got| + max)
      && (max >= |parties[k].w.hist| - |parties[k].got| ==> q.got == parties[k].w.hist)
  {
    RunIsSound(parties, moves, k);
    PollKeepsSound(parties[k], max);
    var q := Polled(parties[k], max);
    assert q.cursor == |q.w.hist| ==> q.w.hist[..q.cursor] == q.w.hist;
  }

  /**
   * The hypothesis on compaction is exact: a compaction of a large log, run while the consumer's acks
   * are at most its cursor, leaves the next poll gapless exactly when the consumer is within the
   * retention floor of the newest event.
   */
  lemma CompactionIsGaplessIff(p: Party, max: nat)
    requires Sound(p) && max >= 1 && |LogBytes(p.w.v.log)| >= COMPACT_BYTES
    requires p.cursor < |p.w.hist| - |p.w.v.recent|
    ensures Answer(CompactView(p.w.v), p.cursor, max) == Ideal(p.w.hist, p.cursor, max)
      <==> |p.w.hist| <= p.cursor + 100_000
  {
    var v, hist := p.w.v, p.w.hist;
    var c := CompactView(v);
    CompactKeepsInv(v, hist);
    FloorAfterCompaction(v, hist);
    InWindowMeaning(c, hist, p.cursor);
    WindowRefinesFile(c, hist, p.cursor, max);
    var f := Floor(c, hist);
    if f > p.cursor {
      FirstOfIdeal(hist, f, max);
      FirstOfIdeal(hist, p.cursor, max);
    }
    hide Inv, Answer, CompactView, InWindow, Ideal;
  }

  lemma FloorAfterCompaction(v: StoreView, hist: seq<Event>)
    requires Inv(v, hist) && |LogBytes(v.log)| >= COMPACT_BYTES
    ensures Floor(CompactView(v), hist) == Min(|hist|, Max(KeepAbove(v), Floor(v, hist)))
    ensures CompactView(v).recent == v.recent
  {
    CompactedLog(v, hist);
    AboveIsSuffix(hist, Max(KeepAbove(v), Floor(v, hist)));
  }

  lemma FirstOfIdeal(hist: seq<Event>, k: nat, max: nat)
    requires Numbered(hist) && k < |hist| && max >= 1
    ensures Ideal(hist, k, max) != [] && Ideal(hist, k, max)[0].seqno == k + 1
  {
  }
}

/** A whole feed: deletions, entries and anything else, in any order. */
module AtomParts {
  import opened Atom
  import opened AtomDeletions
  import opened AtomFeed
  import opened AtomRoundTrip
  import opened Base

  datatype Part = Deleted(g: Gone) | Published(it: Item) | Other(toks: seq<Tok>)

  /** Other tags open neither kind of element. */
  ghost predicate PartOk(p: Part) {
    match p
    case Deleted(g) => GoneOk(g)
    case Published(it) => ItemOk(it)
    case Other(toks) => Outside(toks) && NoDeletion(toks)
  }

  ghost predicate PartsOk(ps: seq<Part>) { forall i :: 0 <= i < |ps| ==> PartOk(ps[i]) }

  function PartToks(p: Part): seq<Tok> {
    match p
    case Deleted(g) => GoneToks(g)
    case Published(it) => ItemToks(it)
    case Other(toks) => toks
  }

  function FeedToks(ps: seq<Part>): seq<Tok> {
    if ps == [] then [] else PartToks(ps[0]) + FeedToks(ps[1..])
  }

  function DeletedIn(ps: seq<Part>): seq<Entry> {
    if ps == [] then []
    else (if ps[0].Deleted? then [GoneEntry(ps[0].g)] else []) + DeletedIn(ps[1..])
  }

  function PublishedIn(ps: seq<Part>): seq<Entry> {
    if ps == [] then []
    else (if ps[0].Published? then [Expected(ps[0].it)] else []) + PublishedIn(ps[1..])
  }

  lemma PartToksOk(p: Part)
    requires PartOk(p)
    ensures ToksOk(PartToks(p))
    ensures !p.Deleted? ==> NoDeletion(PartToks(p))
    ensures !p.Published? ==> Outside(PartToks(p))
  {
    match p
    case Deleted(g) => GoneToksAre(g, []); hide GoneToks, GoneOk;
    case Published(it) => ItemToksOk(it); hide ItemToks, ItemOk;
    case Other(toks) =>
  }

  lemma {:induction false} FeedToksOk(ps: seq<Part>)
    requires PartsOk(ps)
    ensures ToksOk(FeedToks(ps))
  {
    hide PartToks, PartOk, TokOk;
    if ps != [] {
      assert PartOk(ps[0]);
      PartToksOk(ps[0]);
      FeedToksOk(ps[1..]);
      ToksOkAppend(PartToks(ps[0]), FeedToks(ps[1..]));
    }
  }

  lemma PartsSplit(ps: seq<Part>)
    requires PartsOk(ps) && ps != []
    ensures PartOk(ps[0]) && PartsOk(ps[1..]) && FeedToks(ps) == PartToks(ps[0]) + FeedToks(ps[1..])
    ensures ToksOk(FeedToks(ps[1..]))
  {
    hide PartOk, PartToks, TokOk;
    FeedToksOk(ps[1..]);
  }

  lemma NoToks()
    ensures ToksOk([]) && NoDeletion([]) && Outside([])
  {
  }

  lemma DeletionPart(p: Part, rest: seq<Tok>)
    requires PartOk(p) && p.Deleted?
    ensures GoneOk(p.g) && Starts(PartToks(p) + rest, p.g, rest) && '<' !in p.g.gap
  {
    GoneToksAre(p.g, rest);
    hide GoneToks, GoneOk, Starts;
  }

  /** The deletion scan finds every deletion, in order, and passes over everything else. */
  lemma {:induction false} DeletionsRoundTrip(gap: string, pre: seq<Tok>, ps: seq<Part>)
    requires '<' !in gap && ToksOk(pre) && NoDeletion(pre) && PartsOk(ps)
    ensures Deletions(gap + Render(pre + FeedToks(ps))) == DeletedIn(ps)
    decreases |ps|
  {
    hide Render, Deletions, PartToks, PartOk, PartsOk, GoneEntry, NoDeletion, ToksOk, GoneOk, Starts;
    if ps == [] {
      assert pre + FeedToks(ps) == pre;
      NoDeletionsFound(gap, pre);
    } else {
      var p, rest := ps[0], FeedToks(ps[1..]);
      PartsSplit(ps);
      PartToksOk(p);
      if p.Deleted? {
        DeletionPart(p, rest);
        GoneStep(gap, pre, PartToks(p) + rest, p.g, rest);
        NoToks();
        DeletionsRoundTrip(p.g.gap, [], ps[1..]);
        assert [] + rest == rest;
      } else {
        ToksOkAppend(pre, PartToks(p));
        NoDeletionAppend(pre, PartToks(p));
        DeletionsRoundTrip(gap, pre + PartToks(p), ps[1..]);
        Assoc(pre, PartToks(p), rest);
      }
    }
  }

  lemma PublishedPart(p: Part)
    requires PartOk(p) && p.Published?
    ensures ItemOk(p.it) && PartToks(p) == ItemToks(p.it) && '<' !in p.it.gap
  {
    hide HasField, MayHave, ToksOk;
  }

  /** The entry scan finds every entry, in order, and passes over everything else. */
  lemma {:induction false} RegularsRoundTrip(gap: string, pre: seq<Tok>, ps: seq<Part>)
    requires '<' !in gap && Outside(pre) && PartsOk(ps)
    ensures Regulars(gap + Render(pre + FeedToks(ps))) == PublishedIn(ps)
    decreases |ps|
  {
    hide Render, Regulars, PartToks, PartOk, PartsOk, Expected, Outside, ItemOk, ItemToks;
    if ps == [] {
      assert pre + FeedToks(ps) == pre;
      FeedEnd(gap, pre);
    } else {
      var p, rest := ps[0], FeedToks(ps[1..]);
      PartsSplit(ps);
      PartToksOk(p);
      if p.Published? {
        PublishedPart(p);
        ItemStep(gap, pre, p.it, rest);
        NoToks();
        RegularsRoundTrip(p.it.gap, [], ps[1..]);
        assert [] + rest == rest;
      } else {
        OutsideAppend(pre, PartToks(p));
        RegularsRoundTrip(gap, pre + PartToks(p), ps[1..]);
        Assoc(pre, PartToks(p), rest);
      }
    }
  }

  /**
   * The scanner inverts the writer: from a feed of any number of deletions and entries, in any order
   * and among any other tags, with any text between the tags, it recovers exactly those deletions and
   * then exactly those entries, each in order, with titles unescaped and each kind told from the
   * element and its timestamps.
   */
  lemma FeedRoundTrip(gap: string, ps: seq<Part>)
    requires '<' !in gap && PartsOk(ps)
    ensures Entries(gap + Render(FeedToks(ps))) == DeletedIn(ps) + PublishedIn(ps)
  {
    hide Regulars, Deletions, Render, PartsOk, FeedToks;
    NoToks();
    DeletionsRoundTrip(gap, [], ps);
    RegularsRoundTrip(gap, [], ps);
    assert [] + FeedToks(ps) == FeedToks(ps);
  }
}

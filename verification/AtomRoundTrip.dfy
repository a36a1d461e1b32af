/** One entry element: the scanner reads back every field, however its tags are laid out. */
module AtomRoundTrip {
  import opened Atom
  import opened AtomFeed
  import opened AtomMarkers
  import opened Base
  import opened Text
  import Entities

  /** A title as text, and as it is spelled in the feed. */
  datatype Title = Title(text: string, spelled: string)

  /**
   * One entry element of a feed: its fields, the tags it is made of, and the text behind its opening
   * and its closing tag.
   */
  datatype Item = Item(
    video: string,
    channel: string,
    title: Option<Title>,
    published: Option<string>,
    updated: Option<string>,
    open: string,
    toks: seq<Tok>,
    gap: string)

  /** No tag before index `k` has this name. */
  ghost predicate NotBefore(ts: seq<Tok>, k: nat, name: string) {
    k <= |ts| && forall i :: 0 <= i < k ==> ts[i].name != name
  }

  ghost predicate Absent(ts: seq<Tok>, name: string) { NotBefore(ts, |ts|, name) }

  /** The first tag of this name holds the text, with white space around it, and its closing tag follows. */
  ghost predicate HasField(ts: seq<Tok>, name: string, text: string) {
    exists k :: 0 <= k && k + 1 < |ts| && FieldAt(ts, k, name, text)
  }

  predicate Closes(t: Tok, name: string) { t.name == "/" + name }

  ghost predicate FieldAt(ts: seq<Tok>, k: nat, name: string, text: string)
    requires k + 1 < |ts|
  {
    ts[k].name == name && Pads(ts[k].text, text) && Closes(ts[k + 1], name) && NotBefore(ts, k, name)
  }

  /** An optional field, written without a name space. */
  ghost predicate MayHave(ts: seq<Tok>, name: string, yt: string, text: Option<string>) {
    && Absent(ts, yt)
    && match text case Some(t) => HasField(ts, name, t) case None => Absent(ts, name)
  }

  function Spelled(it: Item): Option<string> {
    match it.title case Some(t) => Some(t.spelled) case None => None
  }

  /**
   * The channel stands in its tag; if there is none, or it holds no channel id, the channel stands behind
   * the first path of a channel's page.
   */
  ghost predicate NamesChannel(it: Item) {
    || HasField(it.toks, "yt:channelId", it.channel)
    || (NoChannelTag(it) && Names(it.open + Render(it.toks), "/channel/UC", it.channel))
  }

  ghost predicate NoChannelTag(it: Item) {
    || (Absent(it.toks, "yt:channelId") && Absent(it.toks, "channelId"))
    || ((exists bad :: HasField(it.toks, "yt:channelId", bad) && !IsChannelId(bad))
        && NamesNone(it.open + Render(it.toks), "<yt:channelId>UC"))
  }

  /** The tags write these fields, in any order and among any other tags, with any text between them. */
  ghost predicate ItemOk(it: Item) {
    && IsVideoId(it.video) && IsChannelId(it.channel)
    && (it.title.Some? ==> Entities.Escapes(it.title.value.text, it.title.value.spelled))
    && '<' !in it.open && '<' !in it.gap && ToksOk(it.toks) && NoDeletion(it.toks)
    && Absent(it.toks, "entry") && Absent(it.toks, "/entry")
    && HasField(it.toks, "yt:videoId", it.video) && NamesChannel(it)
    && MayHave(it.toks, "title", "yt:title", Spelled(it))
    && MayHave(it.toks, "published", "yt:published", it.published)
    && MayHave(it.toks, "updated", "yt:updated", it.updated)
  }

  function Expected(it: Item): Entry {
    Entry(
      if it.published.Some? && it.updated.Some? && it.published != it.updated then "updated" else "new",
      it.channel,
      it.video,
      if it.title.Some? then it.title.value.text else "",
      if it.updated.Some? then it.updated.value else if it.published.Some? then it.published.value else "")
  }

  // ---- names --------------------------------------------------------------

  lemma IdCharsPlain(s: string)
    requires AllIdChars(s)
    ensures '<' !in s && Trimmed(s)
  {
  }

  lemma IdNamesPlain()
    ensures PlainName("yt:videoId") && PlainName("/yt:videoId")
    ensures PlainName("yt:channelId") && PlainName("/yt:channelId") && PlainName("channelId")
  {
  }

  lemma TitleNamesPlain()
    ensures PlainName("title") && PlainName("/title") && PlainName("yt:title")
    ensures PlainName("entry") && PlainName("/entry")
  {
  }

  lemma TimeNamesPlain()
    ensures PlainName("published") && PlainName("/published") && PlainName("yt:published")
    ensures PlainName("updated") && PlainName("/updated") && PlainName("yt:updated")
  {
  }

  lemma PlainTok(t: Tok)
    requires PlainName(t.name) && '<' !in t.text
    ensures TokOk(t)
  {
  }

  // ---- reading one block --------------------------------------------------

  lemma ReadsField(ts: seq<Tok>, lead: string, name: string, text: string)
    requires '<' !in lead && ToksOk(ts) && PlainName(name) && HasField(ts, name, text)
    ensures Between(lead + Render(ts), Open(name), Close(name)).Some?
    ensures TrimOpt(Between(lead + Render(ts), Open(name), Close(name))) == Some(text)
  {
    hide Between, PlainName, TokOk, Pads, Trim;
    var k :| 0 <= k && k + 1 < |ts| && FieldAt(ts, k, name, text);
    BetweenTags(lead, ts, name, k);
    TrimIff(ts[k].text, text);
  }

  lemma YtNames()
    ensures "yt:" + "videoId" == "yt:videoId" && "yt:" + "channelId" == "yt:channelId"
    ensures "yt:" + "title" == "yt:title"
    ensures "yt:" + "published" == "yt:published" && "yt:" + "updated" == "yt:updated"
  {
  }

  lemma TagIsYt(s: string, name: string, yt: string)
    requires "yt:" + name == yt && Between(s, Open(yt), Close(yt)).Some?
    ensures Tag(s, name) == Between(s, Open(yt), Close(yt))
  {
  }

  lemma TagIsBare(s: string, name: string, yt: string)
    requires "yt:" + name == yt && Between(s, Open(yt), Close(yt)) == None
    ensures Tag(s, name) == Between(s, Open(name), Close(name))
  {
  }

  lemma TagIsNone(s: string, name: string, yt: string)
    requires "yt:" + name == yt && Between(s, Open(yt), Close(yt)) == None
    requires Between(s, Open(name), Close(name)) == None
    ensures Tag(s, name) == None
  {
  }

  /** An optional field is read as it was written, or found missing. */
  lemma ReadsOptional(ts: seq<Tok>, lead: string, name: string, yt: string, text: Option<string>)
    requires '<' !in lead && ToksOk(ts) && PlainName(name) && PlainName(yt) && "yt:" + name == yt
    requires MayHave(ts, name, yt, text)
    ensures TrimOpt(Tag(lead + Render(ts), name)) == text
  {
    hide Between, PlainName, Tag, ToksOk, HasField, Render, Trim;
    var s := lead + Render(ts);
    NotBetween(lead, ts, yt);
    match text {
      case Some(t) =>
        ReadsField(ts, lead, name, t);
        TagIsBare(s, name, yt);
      case None =>
        NotBetween(lead, ts, name);
        TagIsNone(s, name, yt);
    }
  }

  lemma ReadIds(it: Item)
    requires ItemOk(it)
    ensures var s := it.open + Render(it.toks);
      TrimOpt(Tag(s, "videoId")) == Some(it.video) && BlockChannel(s) == Some(it.channel)
  {
    hide ScanChannel, Names, Trim, Tag, Render, HasField, MayHave, ToksOk, IsVideoId, IsChannelId, PlainName, Between;
    IdNamesPlain();
    YtNames();
    ReadsField(it.toks, it.open, "yt:videoId", it.video);
    TagIsYt(it.open + Render(it.toks), "videoId", "yt:videoId");
    if HasField(it.toks, "yt:channelId", it.channel) {
      ReadsField(it.toks, it.open, "yt:channelId", it.channel);
      TagIsYt(it.open + Render(it.toks), "channelId", "yt:channelId");
    } else {
      ReadsAddress(it);
    }
  }

  /** Without the tag, the scanner's second marker names the channel. */
  lemma ReadsAddress(it: Item)
    requires '<' !in it.open && ToksOk(it.toks)
    requires NoChannelTag(it) && Names(it.open + Render(it.toks), "/channel/UC", it.channel)
    ensures BlockChannel(it.open + Render(it.toks)) == Some(it.channel)
  {
    var s := it.open + Render(it.toks);
    IdNamesPlain();
    YtNames();
    hide Render, Between, Tag, ToksOk, Names, NamesNone, ScanChannel, HasField, IsChannelId, Trim;
    if Absent(it.toks, "yt:channelId") && Absent(it.toks, "channelId") {
      NotBetween(it.open, it.toks, "yt:channelId");
      NotBetween(it.open, it.toks, "channelId");
      TagIsNone(s, "channelId", "yt:channelId");
      NoTagMarker(it.open, it.toks);
    } else {
      var bad :| HasField(it.toks, "yt:channelId", bad) && !IsChannelId(bad);
      ReadsField(it.toks, it.open, "yt:channelId", bad);
      TagIsYt(s, "channelId", "yt:channelId");
    }
    ScanMeaning(s, it.channel);
  }

  lemma NoTagMarker(lead: string, ts: seq<Tok>)
    requires '<' !in lead && ToksOk(ts) && Absent(ts, "yt:channelId")
    ensures NamesNone(lead + Render(ts), "<yt:channelId>UC")
  {
    IdTag();
    ThreeMarkers();
    NoneStarts(ts, MARKERS[0]);
    FindSkip(lead, Render(ts), MARKERS[0]);
    FindTag(ts, MARKERS[0]);
    NoneAtMarker(lead + Render(ts), MARKERS[0]);
    hide Render, FirstTag, NamesNone, Find;
  }

  lemma ReadOthers(it: Item)
    requires ItemOk(it)
    ensures var s := it.open + Render(it.toks);
      && TrimOpt(Tag(s, "title")) == Spelled(it)
      && TrimOpt(Tag(s, "published")) == it.published && TrimOpt(Tag(s, "updated")) == it.updated
  {
    hide TrimOpt, Tag, Render, HasField, NamesChannel, MayHave, ToksOk, IsVideoId, IsChannelId, PlainName, Spelled;
    TitleNamesPlain();
    TimeNamesPlain();
    YtNames();
    ReadsOptional(it.toks, it.open, "title", "yt:title", Spelled(it));
    ReadsOptional(it.toks, it.open, "published", "yt:published", it.published);
    ReadsOptional(it.toks, it.open, "updated", "yt:updated", it.updated);
  }

  lemma TitleReads(it: Item, s: string)
    requires ItemOk(it) && TrimOpt(Tag(s, "title")) == Spelled(it)
    ensures BlockTitle(s) == if it.title.Some? then it.title.value.text else ""
  {
    hide Tag, Trim, Entities.DecodeEntities, Entities.Escapes, HasField, ToksOk, IsVideoId, IsChannelId;
    if it.title.Some? {
      Entities.DecodeUndoesEscaping(it.title.value.text, it.title.value.spelled);
    }
  }

  lemma BlockIs(s: string, v: string, c: string)
    requires TrimOpt(Tag(s, "videoId")) == Some(v) && IsVideoId(v)
    requires BlockChannel(s) == Some(c) && IsChannelId(c)
    ensures BlockEntry(s) == [MakeEntry(v, c, BlockTitle(s), TrimOpt(Tag(s, "published")), TrimOpt(Tag(s, "updated")))]
  {
    hide Tag, TrimOpt, IsVideoId, IsChannelId, BlockChannel, BlockTitle, MakeEntry;
  }

  lemma ExpectedIs(it: Item)
    ensures Expected(it) == MakeEntry(it.video, it.channel, if it.title.Some? then it.title.value.text else "",
                                      it.published, it.updated)
  {
  }

  /** One written block reads back as the entry it was written from, its title unescaped. */
  lemma BlockReads(it: Item)
    requires ItemOk(it)
    ensures BlockEntry(it.open + Render(it.toks)) == [Expected(it)]
  {
    var s := it.open + Render(it.toks);
    assert IsVideoId(it.video) && IsChannelId(it.channel);
    hide *;
    ReadIds(it);
    ReadOthers(it);
    TitleReads(it, s);
    BlockIs(s, it.video, it.channel);
    ExpectedIs(it);
  }

  // ---- one element of the scan --------------------------------------------

  function ItemToks(it: Item): seq<Tok> { [Tok("entry", it.open)] + it.toks + [Tok("/entry", it.gap)] }

  lemma ToksOkAppend(a: seq<Tok>, b: seq<Tok>)
    requires ToksOk(a) && ToksOk(b)
    ensures ToksOk(a + b)
  {
    hide TokOk;
  }

  lemma EntryTokOk(name: string, ws: string)
    requires '<' !in ws && (name == "entry" || name == "/entry")
    ensures ToksOk([Tok(name, ws)])
  {
    TitleNamesPlain();
    PlainTok(Tok(name, ws));
  }

  lemma ItemToksOk(it: Item)
    requires ItemOk(it)
    ensures ToksOk(ItemToks(it)) && NoDeletion(ItemToks(it))
  {
    EntryTokOk("entry", it.open);
    EntryTokOk("/entry", it.gap);
    ToksOkAppend([Tok("entry", it.open)], it.toks);
    ToksOkAppend([Tok("entry", it.open)] + it.toks, [Tok("/entry", it.gap)]);
    NotDeletion(Tok("entry", it.open));
    NotDeletion(Tok("/entry", it.gap));
    NoDeletionAppend([Tok("entry", it.open)], it.toks);
    NoDeletionAppend([Tok("entry", it.open)] + it.toks, [Tok("/entry", it.gap)]);
    hide ToksOk, HasField, NamesChannel, MayHave, Show;
  }

  lemma SliceMiddle(s: string, start: nat, body: string, close: string, gap: string)
    requires start <= |s| && s[start..] == body + (close + gap)
    ensures var end := start + |body|;
      end + |close| <= |s| && s[start..end] == body && s[end + |close|..] == gap
  {
    assert s == s[..start] + (body + (close + gap));
  }

  lemma BehindIs(s: string, end: nat, gap: string)
    requires end + |ENTRY_CLOSE| <= |s| && s[end + |ENTRY_CLOSE|..] == gap
    ensures Behind(s, end) == gap
  {
  }

  /** The scan step on a text that starts with an entry's own text. */
  lemma EntryStep(s: string, start: nat, body: string, close: string, gap: string)
    requires close == ENTRY_CLOSE && |close| == |ENTRY_CLOSE|
    requires start <= |s| && s[start..] == body + (close + gap)
    requires NextEntry(s) == Some((start, start + |body|))
    ensures Regulars(s) == BlockEntry(body) + Regulars(gap)
  {
    hide Find, BlockEntry, NextEntry, Regulars, Behind;
    SliceMiddle(s, start, body, close, gap);
    BehindIs(s, start + |body|, gap);
    RegularsUnfold(s, start, start + |body|);
  }

  lemma RegularsUnfold(s: string, start: nat, end: nat)
    requires start <= end <= |s| && NextEntry(s) == Some((start, end))
    ensures Regulars(s) == BlockEntry(s[start..end]) + Regulars(Behind(s, end))
  {
    hide BlockEntry, NextEntry, Behind;
  }

  lemma NextEntryIs(s: string, pos: nat, start: nat, end: nat)
    requires Find(s, ENTRY_OPEN) == pos <= |s| && start == pos + |ENTRY_OPEN| <= end <= |s|
    requires Find(s[start..], ENTRY_CLOSE) == end - start
    ensures NextEntry(s) == Some((start, end))
  {
    hide Find;
  }

  lemma NoEntry(s: string)
    requires Find(s, ENTRY_OPEN) > |s|
    ensures Regulars(s) == []
  {
    hide Find, BlockEntry;
  }

  /** The tags around an entry element, as the scan sees them. */
  lemma AroundEntry(it: Item, rest: seq<Tok>)
    requires ItemOk(it) && ToksOk(rest)
    ensures var ts := it.toks + ([Tok("/entry", it.gap)] + rest);
      && Find(it.open + Render(ts), ENTRY_CLOSE) == |it.open + Render(it.toks)|
      && it.open + Render(ts) == (it.open + Render(it.toks)) + (ENTRY_CLOSE + (it.gap + Render(rest)))
  {
    hide HasField, NamesChannel, MayHave, Entities.Escapes, IsVideoId, IsChannelId;
    var ts, k := it.toks + ([Tok("/entry", it.gap)] + rest), |it.toks|;
    TitleNamesPlain();
    EntryTokOk("/entry", it.gap);
    ToksOkAppend([Tok("/entry", it.gap)], rest);
    ToksOkAppend(it.toks, [Tok("/entry", it.gap)] + rest);
    assert ts[k] == Tok("/entry", it.gap);
    assert ts[..k] == it.toks && ts[k + 1..] == rest;
    EntryNames();
    FindOpen(it.open, ts, "/entry", k);
    SplitAt(ts, k);
    ShowIs(ts[k]);
    hide Render, Find, ItemOk, ToksOk, PlainName, Show, Open;
    Assoc(it.open, Render(ts[..k]), Show(ts[k]) + Render(rest));
    Assoc(ENTRY_CLOSE, it.gap, Render(rest));
  }

  lemma EntryNames()
    ensures Open("entry") == ENTRY_OPEN && Open("/entry") == ENTRY_CLOSE
  {
  }

  /** Tags that open no entry element. */
  ghost predicate Outside(ts: seq<Tok>) { ToksOk(ts) && Absent(ts, "entry") }

  /** Where the element is found. */
  lemma ItemStarts(gap: string, pre: seq<Tok>, us: seq<Tok>) returns (s: string, pos: nat)
    requires '<' !in gap && Outside(pre) && ToksOk(us) && us != [] && us[0].name == "entry"
    ensures s == gap + Render(pre + us)
    ensures Find(s, ENTRY_OPEN) == pos && pos + |ENTRY_OPEN| <= |s|
    ensures s[pos + |ENTRY_OPEN|..] == us[0].text + Render(us[1..])
  {
    hide Find, Render, TokOk, Show;
    var ts := pre + us;
    s, pos := gap + Render(ts), |gap| + |Render(ts[..|pre|])|;
    TitleNamesPlain();
    EntryNames();
    ToksOkAppend(pre, us);
    assert ts[|pre|] == us[0] && ts[|pre| + 1..] == us[1..];
    assert forall i :: 0 <= i < |pre| ==> ts[i] == pre[i];
    hide Open, PlainName, ToksOk;
    FindOpen(gap, ts, "entry", |pre|);
    BehindOpen(gap, ts, "entry", |pre|);
  }

  lemma Consume(s: string, pos: nat, body: string, after: string)
    requires Find(s, ENTRY_OPEN) == pos && pos + |ENTRY_OPEN| <= |s|
    requires s[pos + |ENTRY_OPEN|..] == body + (ENTRY_CLOSE + after)
    requires Find(body + (ENTRY_CLOSE + after), ENTRY_CLOSE) == |body|
    ensures Regulars(s) == BlockEntry(body) + Regulars(after)
  {
    hide Find, BlockEntry, NextEntry, Regulars;
    var start := pos + |ENTRY_OPEN|;
    assert |s| == start + |body| + |ENTRY_CLOSE| + |after|;
    NextEntryIs(s, pos, start, start + |body|);
    EntryStep(s, start, body, ENTRY_CLOSE, after);
  }

  lemma ItemSplit(it: Item, rest: seq<Tok>)
    ensures var us := ItemToks(it) + rest;
      us != [] && us[0] == Tok("entry", it.open) && us[1..] == it.toks + ([Tok("/entry", it.gap)] + rest)
  {
  }

  /** One entry element is consumed, and the scan goes on behind it. */
  lemma ItemStep(gap: string, pre: seq<Tok>, it: Item, rest: seq<Tok>)
    requires '<' !in gap && Outside(pre) && ItemOk(it) && ToksOk(rest)
    ensures Regulars(gap + Render(pre + (ItemToks(it) + rest))) == [Expected(it)] + Regulars(it.gap + Render(rest))
  {
    hide *;
    ItemToksOk(it);
    ToksOkAppend(ItemToks(it), rest);
    ItemSplit(it, rest);
    var s, pos := ItemStarts(gap, pre, ItemToks(it) + rest);
    AroundEntry(it, rest);
    BlockReads(it);
    Consume(s, pos, it.open + Render(it.toks), it.gap + Render(rest));
  }

  lemma OutsideAppend(a: seq<Tok>, b: seq<Tok>)
    requires Outside(a) && Outside(b)
    ensures Outside(a + b)
  {
    hide TokOk;
  }

  lemma FeedEnd(gap: string, ts: seq<Tok>)
    requires '<' !in gap && Outside(ts)
    ensures Regulars(gap + Render(ts)) == []
  {
    hide Find, Render;
    TitleNamesPlain();
    EntryNames();
    OpenPattern("entry");
    FindSkip(gap, Render(ts), ENTRY_OPEN);
    FirstTagIsFirstNamed(ts, "entry");
    FindTag(ts, ENTRY_OPEN);
    NoneNamed(ts, "entry");
    NoEntry(gap + Render(ts));
  }

  lemma NoneNamed(ts: seq<Tok>, name: string)
    requires NotBefore(ts, |ts|, name)
    ensures FirstNamed(ts, name) == |ts|
  {
  }

  /** An entry element that is never closed is read to the end of the body. */
  lemma UnclosedEntry(gap: string, body: string)
    requires '<' !in gap && Find(body, "</entry>") > |body|
    ensures Regulars(gap + "<entry>" + body) == BlockEntry(body)
  {
    var s := gap + "<entry>" + body;
    OpenPattern("entry");
    EntryNames();
    Assoc(gap, ENTRY_OPEN, body);
    FindSkip(gap, ENTRY_OPEN + body, ENTRY_OPEN);
    FindAtFront(ENTRY_OPEN + body, ENTRY_OPEN);
    var start := |gap| + |ENTRY_OPEN|;
    assert s[start..] == body;
    hide Find, BlockEntry;
    assert NextEntry(s) == Some((start, |s|));
    assert s[start..|s|] == body && Behind(s, |s|) == "";
    FindIsFirst("", ENTRY_OPEN);
    assert Regulars("") == [];
  }

  // ---- no deletions -------------------------------------------------------

  lemma DelPattern()
    ensures TagPattern(DEL_OPEN) && |DEL_OPEN| == 17 && DEL_OPEN[1] == 'a' && DEL_OPEN[2] == 't'
  {
  }

  lemma NotDeletion(t: Tok)
    requires t.name != "" && t.name[0] != 'a'
    ensures !(DEL_OPEN <= Show(t))
  {
    DelPattern();
    assert Show(t)[1] == t.name[0];
  }

  ghost predicate NoDeletion(ts: seq<Tok>) { forall i :: 0 <= i < |ts| ==> !(DEL_OPEN <= Show(ts[i])) }

  lemma NoDeletionAppend(a: seq<Tok>, b: seq<Tok>)
    requires NoDeletion(a) && NoDeletion(b)
    ensures NoDeletion(a + b)
  {
    hide Show;
  }

  lemma {:induction false} NoFirstDeletion(ts: seq<Tok>)
    requires NoDeletion(ts)
    ensures FirstTag(ts, DEL_OPEN) == |ts|
  {
    if ts != [] {
      assert !(DEL_OPEN <= Show(ts[0]));
      NoFirstDeletion(ts[1..]);
    }
    hide Show;
  }

  lemma NoDeletionsFound(gap: string, ts: seq<Tok>)
    requires '<' !in gap && ToksOk(ts) && NoDeletion(ts)
    ensures Deletions(gap + Render(ts)) == []
  {
    hide Find, Render, DeletedEntry, DeletionEnd;
    DelPattern();
    NoFirstDeletion(ts);
    FindSkip(gap, Render(ts), DEL_OPEN);
    FindTag(ts, DEL_OPEN);
  }

  // ---- the hub's layout ---------------------------------------------------

  const HUB_NAMES: seq<string> := [
    "id", "/id", "yt:videoId", "/yt:videoId", "yt:channelId", "/yt:channelId", "title", "/title",
    "author", "name", "/name", "/author", "published", "/published", "updated", "/updated"]

  /** The names with the given texts behind them. */
  function Laid(texts: seq<string>): (ts: seq<Tok>)
    requires |texts| == |HUB_NAMES|
    ensures |ts| == |HUB_NAMES| && forall i :: 0 <= i < |ts| ==> ts[i] == Tok(HUB_NAMES[i], texts[i])
  {
    seq(|HUB_NAMES|, i requires 0 <= i < |HUB_NAMES| => Tok(HUB_NAMES[i], texts[i]))
  }

  lemma HubLengths()
    ensures |HUB_NAMES| == 16
    ensures forall i :: 0 <= i < 16 ==> |HUB_NAMES[i]| == [2, 3, 10, 11, 12, 13, 5, 6, 6, 4, 5, 7, 9, 10, 7, 8][i]
  {
  }

  lemma HubFronts()
    ensures
      var fronts := ['i', '/', 'y', '/', 'y', '/', 't', '/', 'a', 'n', '/', '/', 'p', '/', 'u', '/'];
      forall i :: 0 <= i < 16 ==> HUB_NAMES[i] != "" && HUB_NAMES[i][0] == fronts[i]
  {
  }

  lemma HubFields()
    ensures HUB_NAMES[2] == "yt:videoId" && HUB_NAMES[3] == "/" + "yt:videoId"
    ensures HUB_NAMES[4] == "yt:channelId" && HUB_NAMES[5] == "/" + "yt:channelId"
    ensures HUB_NAMES[6] == "title" && HUB_NAMES[7] == "/" + "title"
    ensures HUB_NAMES[12] == "published" && HUB_NAMES[13] == "/" + "published"
    ensures HUB_NAMES[14] == "updated" && HUB_NAMES[15] == "/" + "updated"
  {
  }

  /** Before index `k` a name is missing whose length and first letter no name but the `j`-th has. */
  lemma HubMissing(texts: seq<string>, k: nat, name: string, j: nat)
    requires |texts| == |HUB_NAMES| == 16 && k <= 16 && name != "" && (j < k ==> HUB_NAMES[j] != name)
    requires
      var lengths := [2, 3, 10, 11, 12, 13, 5, 6, 6, 4, 5, 7, 9, 10, 7, 8];
      var fronts := ['i', '/', 'y', '/', 'y', '/', 't', '/', 'a', 'n', '/', '/', 'p', '/', 'u', '/'];
      forall i :: 0 <= i < k && i != j ==> lengths[i] != |name| || fronts[i] != name[0]
    ensures NotBefore(Laid(texts), k, name)
  {
    HubLengths();
    HubFronts();
    hide HUB_NAMES;
    var ts := Laid(texts);
    forall i | 0 <= i < k ensures ts[i].name != name {
      assert ts[i].name == HUB_NAMES[i];
    }
  }

  lemma HubApart()
    ensures |HUB_NAMES| == 16
    ensures HUB_NAMES[2] != "yt:updated" && HUB_NAMES[4] != "yt:published" && HUB_NAMES[7] != "/entry"
  {
    assert HUB_NAMES[2][3] == 'v' && "yt:updated"[3] == 'u';
    assert HUB_NAMES[4][3] == 'c' && "yt:published"[3] == 'p';
    assert HUB_NAMES[7][1] == 't' && "/entry"[1] == 'e';
  }

  lemma HubPlain()
    ensures forall i :: 0 <= i < |HUB_NAMES| ==> PlainName(HUB_NAMES[i])
  {
  }

  lemma HubOpens(texts: seq<string>)
    requires |texts| == |HUB_NAMES| && forall i :: 0 <= i < |texts| ==> '<' !in texts[i]
    ensures ToksOk(Laid(texts)) && Absent(Laid(texts), "entry") && Absent(Laid(texts), "/entry")
    ensures Absent(Laid(texts), "yt:title") && Absent(Laid(texts), "yt:published") && Absent(Laid(texts), "yt:updated")
  {
    HubLengths();
    HubApart();
    HubPlain();
    hide HUB_NAMES, PlainName;
    forall i | 0 <= i < 16 ensures TokOk(Laid(texts)[i]) { PlainTok(Laid(texts)[i]); }
    HubMissing(texts, 16, "entry", 16);
    HubMissing(texts, 16, "/entry", 7);
    HubMissing(texts, 16, "yt:title", 16);
    HubMissing(texts, 16, "yt:published", 4);
    HubMissing(texts, 16, "yt:updated", 2);
  }

  lemma HubHasField(texts: seq<string>, k: nat, name: string)
    requires |texts| == |HUB_NAMES| == 16 && k < 15
    requires HUB_NAMES[k] == name && HUB_NAMES[k + 1] == "/" + name && NotBefore(Laid(texts), k, name)
    ensures HasField(Laid(texts), name, Trim(texts[k]))
  {
    hide HUB_NAMES, Trim, Pads;
    TrimIff(texts[k], Trim(texts[k]));
    assert FieldAt(Laid(texts), k, name, Trim(texts[k]));
  }

  lemma HubHolds(texts: seq<string>)
    requires |texts| == |HUB_NAMES|
    ensures HasField(Laid(texts), "yt:videoId", Trim(texts[2]))
    ensures HasField(Laid(texts), "yt:channelId", Trim(texts[4]))
    ensures HasField(Laid(texts), "title", Trim(texts[6]))
    ensures HasField(Laid(texts), "published", Trim(texts[12]))
    ensures HasField(Laid(texts), "updated", Trim(texts[14]))
  {
    HubLengths();
    HubFields();
    hide HUB_NAMES, NotBefore, HasField, Trim;
    HubMissing(texts, 2, "yt:videoId", 16);
    HubMissing(texts, 4, "yt:channelId", 16);
    HubMissing(texts, 6, "title", 16);
    HubMissing(texts, 12, "published", 16);
    HubMissing(texts, 14, "updated", 16);
    HubHasField(texts, 2, "yt:videoId");
    HubHasField(texts, 4, "yt:channelId");
    HubHasField(texts, 6, "title");
    HubHasField(texts, 12, "published");
    HubHasField(texts, 14, "updated");
  }

  lemma HubNoDeletion(texts: seq<string>)
    requires |texts| == |HUB_NAMES|
    ensures NoDeletion(Laid(texts))
  {
    HubLengths();
    HubFronts();
    assert HUB_NAMES[8] == "author";
    hide HUB_NAMES, Show;
    var ts := Laid(texts);
    forall i | 0 <= i < 16 ensures !(DEL_OPEN <= Show(ts[i])) {
      assert ts[i].name == HUB_NAMES[i];
      if i == 8 {
        AuthorIsNoDeletion(ts[i]);
      } else {
        NotDeletion(ts[i]);
      }
    }
  }

  lemma AuthorIsNoDeletion(t: Tok)
    requires t.name == "author"
    ensures !(DEL_OPEN <= Show(t))
  {
    DelPattern();
    assert Show(t)[2] == 'u';
  }

  /** The layout of the hub, with any indentation, author, and white space in its fields, is one that reads back. */
  lemma HubLayout(it: Item, texts: seq<string>)
    requires |texts| == |HUB_NAMES| && forall i :: 0 <= i < |texts| ==> '<' !in texts[i]
    requires it.toks == Laid(texts) && '<' !in it.open && '<' !in it.gap
    requires it.title.Some? && it.published.Some? && it.updated.Some?
    requires Pads(texts[2], it.video) && Pads(texts[4], it.channel) && Pads(texts[6], it.title.value.spelled)
    requires Pads(texts[12], it.published.value) && Pads(texts[14], it.updated.value)
    requires IsVideoId(it.video) && IsChannelId(it.channel)
    requires Entities.Escapes(it.title.value.text, it.title.value.spelled)
    ensures ItemOk(it)
  {
    hide *;
    HubLengths();
    HubOpens(texts);
    HubHolds(texts);
    HubNoDeletion(texts);
    HubTexts(texts, it.video, it.channel, it.title.value.spelled, it.published.value, it.updated.value);
    FullItem(it);
  }

  /** An entry element with all its fields. */
  lemma FullItem(it: Item)
    requires '<' !in it.open && '<' !in it.gap && ToksOk(it.toks) && NoDeletion(it.toks)
    requires it.title.Some? && it.published.Some? && it.updated.Some?
    requires IsVideoId(it.video) && IsChannelId(it.channel)
    requires Entities.Escapes(it.title.value.text, it.title.value.spelled)
    requires Absent(it.toks, "entry") && Absent(it.toks, "/entry")
    requires Absent(it.toks, "yt:title") && Absent(it.toks, "yt:published") && Absent(it.toks, "yt:updated")
    requires HasField(it.toks, "yt:videoId", it.video) && HasField(it.toks, "yt:channelId", it.channel)
    requires HasField(it.toks, "title", it.title.value.spelled)
    requires HasField(it.toks, "published", it.published.value) && HasField(it.toks, "updated", it.updated.value)
    ensures ItemOk(it)
  {
    hide HasField, Absent, ToksOk, NoDeletion, IsVideoId, IsChannelId, Entities.Escapes, Names, Render;
  }

  lemma HubTexts(texts: seq<string>, v: string, c: string, t: string, p: string, u: string)
    requires |texts| == 16
    requires Pads(texts[2], v) && Pads(texts[4], c) && Pads(texts[6], t) && Pads(texts[12], p) && Pads(texts[14], u)
    ensures Trim(texts[2]) == v && Trim(texts[4]) == c && Trim(texts[6]) == t
    ensures Trim(texts[12]) == p && Trim(texts[14]) == u
  {
    hide Trim, Pads;
    TrimIff(texts[2], v);
    TrimIff(texts[4], c);
    TrimIff(texts[6], t);
    TrimIff(texts[12], p);
    TrimIff(texts[14], u);
  }
}

/** One deletion element: the scanner reads back its video and its channel. */
module AtomDeletions {
  import opened Atom
  import opened AtomFeed
  import opened AtomMarkers
  import opened AtomRoundTrip
  import opened Base
  import opened Text

  // ---- one deletion element -----------------------------------------------

  const REF: string := "ref=\"yt:video:"

  const GONE: string := "at:deleted-entry "

  const SITE: string := "https://www.youtube.com"

  /**
   * One deletion element of a feed: further attributes, the author's address among other tags, and the
   * text behind the opening tag, behind the address, and behind the closing tag.
   */
  datatype Gone = Gone(
    video: string,
    channel: string,
    attrs: string,
    open: string,
    before: seq<Tok>,
    behind: string,
    after: seq<Tok>,
    gap: string)

  /** Tags that open neither kind of element, close no deletion, and are not the tag of a channel id. */
  ghost predicate Around(ts: seq<Tok>) {
    && Outside(ts) && NoDeletion(ts)
    && NotBefore(ts, |ts|, "/at:deleted-entry") && NotBefore(ts, |ts|, "yt:channelId")
  }

  ghost predicate GoneOk(g: Gone) {
    && IsVideoId(g.video) && IsChannelId(g.channel) && PlainName(g.attrs)
    && '<' !in g.open && '<' !in g.behind && '<' !in g.gap
    && Around(g.before) && Around(g.after)
    && Find(Lead(g), MARK) > |Lead(g)|
  }

  function GoneName(g: Gone): string { GONE + (REF + (g.video + "\"" + g.attrs)) }

  /** The text up to the author's address. */
  function Lead(g: Gone): string { Render([Tok(GoneName(g), g.open)] + g.before) }

  function Address(g: Gone): seq<Tok> { [Tok("uri", SITE + "/channel/" + g.channel), Tok("/uri", g.behind)] }

  function Inner(g: Gone): seq<Tok> { g.before + Address(g) + g.after }

  function GoneHead(g: Gone): seq<Tok> { [Tok(GoneName(g), g.open)] + Inner(g) }

  /** The text of the element, closing tag included. */
  function GoneText(g: Gone): string { Render(GoneHead(g)) + DEL_CLOSE }

  function GoneEntry(g: Gone): Entry { Entry("deleted", g.channel, g.video, "", "") }

  lemma FindChar(a: string, c: char, rest: string)
    requires c !in a
    ensures Find(a + [c] + rest, [c]) == |a|
  {
    var s := a + [c] + rest;
    assert s[|a|..] == [c] + rest;
    forall j | 0 <= j < |a| ensures !([c] <= s[j..]) {
      assert s[j..][0] == a[j];
    }
    FindIsFirstAt(s, [c], |a|);
  }

  /** The reference cannot start inside the opening of the tag. */
  lemma FindRef(tail: string)
    ensures Find("<" + GONE + (REF + tail), REF) == 18
  {
    var s := "<" + GONE + (REF + tail);
    assert |"<" + GONE| == 18 && |REF| >= 3 && REF[0] == 'r' && REF[1] == 'e' && REF[2] == 'f';
    assert s[18..] == REF + tail;
    forall j | 0 <= j < 18 ensures !(REF <= s[j..]) {
      NotRef(j);
      assert s[j] == (("<" + GONE) + "ref")[j] && s[j + 1] == (("<" + GONE) + "ref")[j + 1];
      assert s[j..][0] == s[j] && s[j..][1] == s[j + 1];
    }
    FindIsFirstAt(s, REF, 18);
  }

  lemma NotRef(j: nat)
    requires j < 18
    ensures var t := ("<" + GONE) + "ref"; |t| == 21 && !(t[j] == 'r' && t[j + 1] == 'e')
  {
  }

  lemma GoneTextIs(g: Gone) returns (tail: string)
    ensures GoneText(g) == "<" + GONE + (REF + (g.video + ['"'] + tail))
  {
    var more := Render(Inner(g)) + DEL_CLOSE;
    tail := g.attrs + ">" + g.open + more;
    RenderHead(g);
    Regroup(GONE, REF, g.video, g.attrs, g.open, Render(Inner(g)), DEL_CLOSE);
  }

  lemma RenderHead(g: Gone)
    ensures Render(GoneHead(g)) == "<" + GoneName(g) + ">" + g.open + Render(Inner(g))
  {
    hide GoneName;
    assert GoneHead(g)[1..] == Inner(g);
  }

  lemma Regroup(a: string, r: string, v: string, x: string, ws: string, inner: string, close: string)
    ensures "<" + (a + (r + (v + "\"" + x))) + ">" + ws + inner + close
         == "<" + a + (r + (v + ['"'] + (x + ">" + ws + (inner + close))))
  {
  }

  // ---- the address --------------------------------------------------------

  lemma PlainAppend(a: string, b: string)
    ensures PlainName(a + b) <==> PlainName(a) && PlainName(b)
  {
    assert forall c :: c in a + b <==> c in a || c in b;
  }

  lemma AddressNames()
    ensures PlainName(SITE) && PlainName("/channel/") && PlainName("uri") && PlainName("/uri")
    ensures !(DEL_OPEN <= "<uri>") && !(DEL_OPEN <= "</uri>")
  {
  }

  lemma AddressIsAround(g: Gone)
    requires IsChannelId(g.channel) && '<' !in g.behind
    ensures Around(Address(g))
  {
    AddressNames();
    ChannelPlain(g.channel);
    PlainAppend(SITE, "/channel/");
    PlainAppend(SITE + "/channel/", g.channel);
    hide IsChannelId;
    var a := Address(g);
    PlainTok(a[0]);
    PlainTok(a[1]);
    NotDeletion(a[0]);
    NotDeletion(a[1]);
    hide Show, TokOk, PlainName;
  }

  lemma ChannelPlain(c: string)
    requires IsChannelId(c)
    ensures PlainName(c)
  {
  }

  lemma AroundAppend(a: seq<Tok>, b: seq<Tok>)
    requires Around(a) && Around(b)
    ensures Around(a + b)
  {
    OutsideAppend(a, b);
    NoDeletionAppend(a, b);
    hide Outside, NoDeletion;
  }

  lemma InnerIsAround(g: Gone)
    requires GoneOk(g)
    ensures Around(Inner(g))
  {
    hide Around, Address, IsChannelId, IsVideoId, Lead;
    AddressIsAround(g);
    AroundAppend(g.before, Address(g));
    AroundAppend(g.before + Address(g), g.after);
  }

  /** Text without the marker, then a tag: the marker is first found where it is found from the tag on. */
  lemma NotAcross(lead: string, rest: string, p: string, j: nat)
    requires Find(lead, p) > |lead| && rest != "" && rest[0] == '<' && '<' !in p && j < |lead|
    ensures !(p <= (lead + rest)[j..])
  {
    hide Find;
    var s := lead + rest;
    FindIsFirst(lead, p);
    var here := s[j..];
    assert here == lead[j..] + rest;
    assert !(p <= lead[j..]);
    assert here[|lead| - j] == '<';
  }

  lemma NotInSite(k: nat)
    requires k < 28
    ensures var t := "<uri>" + SITE + "/"; |t| == 29 && !(t[k] == '/' && t[k + 1] == 'c')
  {
  }

  lemma MarkIs()
    ensures |MARK| == 11 && MARK[0] == '/' && MARK[1] == 'c' && MARK == "/channel/" + "UC" && '<' !in MARK
    ensures |"<uri>" + SITE| == 28
  {
  }

  /** The address is where the marker first occurs. */
  lemma MarkFirstAt(lead: string, channel: string, tail: string)
    requires Find(lead, MARK) > |lead| && IsChannelId(channel)
    ensures var s := lead + ("<uri>" + SITE + ("/channel/" + channel + tail));
      && Find(s, MARK) == |lead| + 28 && |s| >= |lead| + 28 + 9 + 24
      && Take(s[|lead| + 28 + 9..], 24) == channel
  {
    MarkIs();
    hide Find, MARK, SITE;
    var site, rest := "<uri>" + SITE, "/channel/" + channel + tail;
    var s := lead + (site + rest);
    assert s[|lead| + 28..] == rest;
    assert MARK <= rest;
    forall j | 0 <= j < |lead| + 28 ensures !(MARK <= s[j..]) {
      if j < |lead| {
        NotAcross(lead, site + rest, MARK, j);
      } else {
        NotInSite(j - |lead|);
        assert s[j] == (site + "/")[j - |lead|] && s[j + 1] == (site + "/")[j - |lead| + 1];
        assert s[j..][0] == s[j] && s[j..][1] == s[j + 1];
      }
    }
    FindIsFirstAt(s, MARK, |lead| + 28);
    assert s[|lead| + 28 + 9..] == channel + tail;
  }

  lemma GoneSplits(g: Gone) returns (tail: string)
    ensures GoneText(g) == Lead(g) + ("<uri>" + SITE + ("/channel/" + g.channel + tail))
  {
    var front := [Tok(GoneName(g), g.open)] + g.before;
    var a := Address(g);
    assert GoneHead(g) == front + (a + g.after);
    RenderAppend(front, a + g.after);
    assert (a + g.after)[1..] == [a[1]] + g.after;
    var more := Render([a[1]] + g.after);
    assert Render(a + g.after) == Show(a[0]) + more;
    tail := more + DEL_CLOSE;
    AddressText(g);
    hide Render, GoneHead, Address, Show, GoneName;
    Flatten(Lead(g), "<uri>" + SITE, "/channel/" + g.channel, more, DEL_CLOSE);
  }

  lemma AddressText(g: Gone)
    ensures Show(Address(g)[0]) == "<uri>" + SITE + ("/channel/" + g.channel)
  {
    var site, path := SITE, "/channel/" + g.channel;
    assert Open("uri") == "<uri>";
    hide SITE, Open;
    assert site + "/channel/" + g.channel == site + path;
    Assoc("<uri>", site, path);
  }

  lemma Flatten(lead: string, site: string, path: string, more: string, close: string)
    ensures lead + (site + path + more) + close == lead + (site + (path + (more + close)))
  {
  }

  /** The tag of a channel id, which is looked for first, does not occur. */
  lemma NoIdTag(g: Gone)
    requires GoneOk(g)
    ensures AtMarker(GoneText(g), MARKERS[0]) == None
  {
    var close := Tok("/at:deleted-entry", "");
    var ts := GoneHead(g) + [close];
    InnerIsAround(g);
    GoneNamePlain(g);
    GoneNames();
    IdTag();
    AllTags(g, ts);
    hide GoneOk, Around, IsVideoId, IsChannelId, PlainName, GoneName, Inner, Find, Lead;
    NoneStarts(ts, MARKERS[0]);
    FindTag(ts, MARKERS[0]);
    CloseText(g);
    hide MARKERS, Render, FirstTag;
  }

  lemma AllTags(g: Gone, ts: seq<Tok>)
    requires ts == GoneHead(g) + [Tok("/at:deleted-entry", "")] && Around(Inner(g)) && PlainName(GoneName(g))
    requires '<' !in g.open
    ensures ToksOk(ts) && NotBefore(ts, |ts|, "yt:channelId")
  {
    GoneNames();
    hide Inner, PlainName;
    PlainTok(Tok(GoneName(g), g.open));
    PlainTok(Tok("/at:deleted-entry", ""));
    assert GoneName(g)[0] == 'a';
    hide GoneName;
  }

  lemma CloseText(g: Gone)
    ensures GoneText(g) == Render(GoneHead(g) + [Tok("/at:deleted-entry", "")])
  {
    GoneNames();
    var close := Tok("/at:deleted-entry", "");
    RenderAppend(GoneHead(g), [close]);
    assert [close][1..] == [];
    assert Show(close) == DEL_CLOSE + "";
    assert Render([close]) == DEL_CLOSE + "";
    hide GoneHead;
  }

  /** The channel of a written deletion is the one its address names. */
  lemma ChannelReads(g: Gone)
    requires GoneOk(g)
    ensures ScanChannel(GoneText(g)) == Some(g.channel)
  {
    var tail := GoneSplits(g);
    NoIdTag(g);
    MarkFirstAt(Lead(g), g.channel, tail);
    hide GoneText, Lead, Find, IsVideoId;
    SecondMarker(GoneText(g), |Lead(g)| + 28, g.channel);
  }

  /** A written deletion reads back as its video and its channel. */
  lemma DeletionReads(g: Gone)
    requires GoneOk(g)
    ensures DeletedEntry(GoneText(g)) == [GoneEntry(g)]
  {
    ChannelReads(g);
    var tail := GoneTextIs(g);
    var s, rest := GoneText(g), g.video + ['"'] + tail;
    hide GoneText, ScanChannel, Find, Around, Lead, IsChannelId;
    FindRef(rest);
    FindChar(g.video, '"', tail);
    BehindRef(s, rest);
    BetweenIs(s, 18, REF, rest, |g.video|, "\"");
    assert rest[..|g.video|] == g.video;
    IdCharsPlain(g.video);
    TrimIdentity(g.video);
    DeletedEntryOf(s, g.video, g.video);
  }

  /**
   * Any block whose reference to a video stands where `pre` ends: its white space is dropped, a malformed
   * video id drops the whole deletion, and the channel may be missing.
   */
  lemma DeletionReference(pre: string, video: string, post: string, m: string)
    requires Find(pre + REF + video + "\"" + post, REF) == |pre| && '"' !in video && Pads(video, m)
    ensures
      var block := pre + REF + video + "\"" + post;
      DeletedEntry(block) ==
        if IsVideoId(m) then [Entry("deleted", GetOr(ScanChannel(block), ""), m, "", "")] else []
  {
    var block, rest := pre + REF + video + "\"" + post, video + ['"'] + post;
    hide ScanChannel, Find, IsVideoId, Pads, Trim, REF;
    assert block == pre + REF + rest;
    assert block[|pre| + |REF|..] == rest;
    FindChar(video, '"', post);
    BetweenIs(block, |pre|, REF, rest, |video|, "\"");
    assert rest[..|video|] == video;
    TrimIff(video, m);
    DeletedEntryOf(block, video, m);
  }

  lemma DeletedEntryOf(block: string, video: string, m: string)
    requires Between(block, REF, "\"") == Some(video) && Trim(video) == m
    ensures DeletedEntry(block) ==
      if IsVideoId(m) then [Entry("deleted", GetOr(ScanChannel(block), ""), m, "", "")] else []
  {
    hide Between, ScanChannel, Trim, IsVideoId;
  }

  /** A text that holds none of the three markers names no channel, and a deletion is yielded without one. */
  lemma NoChannelNamed(s: string)
    requires Find(s, "<yt:channelId>UC") > |s| && Find(s, "/channel/UC") > |s| && Find(s, "channel_id=UC") > |s|
    ensures ScanChannel(s) == None
  {
    ThreeMarkers();
    hide MARKERS, Find;
    assert ScanChannel(s).Some? ==> false by {
      if ScanChannel(s).Some? {
        var c := ScanChannel(s).value;
        ScanMeaning(s, c);
        NotFound(s, "<yt:channelId>UC", c);
        NotFound(s, "/channel/UC", c);
        NotFound(s, "channel_id=UC", c);
      }
    }
  }

  lemma NotFound(s: string, p: string, c: string)
    requires |p| >= 2 && Find(s, p) > |s|
    ensures !Names(s, p, c)
  {
    FindIsFirst(s, p);
    hide Find, IsChannelId;
  }

  lemma BehindRef(s: string, rest: string)
    requires s == "<" + GONE + (REF + rest)
    ensures 18 + |REF| <= |s| && s[18 + |REF|..] == rest
  {
    assert |"<" + GONE| == 18;
  }

  /** A deletion that is never closed is read to the end of the body. */
  lemma UnclosedDeletion(gap: string, body: string)
    requires '<' !in gap && DEL_OPEN <= body && Find(body, "</at:deleted-entry>") > |body|
    ensures Deletions(gap + body) == DeletedEntry(body)
  {
    var s := gap + body;
    DelPattern();
    FindSkip(gap, body, DEL_OPEN);
    FindAtFront(body, DEL_OPEN);
    assert s[|gap|..] == body;
    hide Find, DeletedEntry;
    assert DeletionEnd(s, |gap|) == |s|;
    assert s[|gap|..|s|] == body && s[|s|..] == "";
    FindIsFirst("", DEL_OPEN);
    assert Deletions("") == [];
  }

  // ---- the deletion scan --------------------------------------------------

  lemma GoneNames()
    ensures Open("/at:deleted-entry") == DEL_CLOSE && PlainName("/at:deleted-entry")
    ensures PlainName(GONE) && PlainName(REF) && DEL_OPEN <= "<" + GONE
  {
  }

  lemma GoneNamePlain(g: Gone)
    requires GoneOk(g)
    ensures PlainName(GoneName(g)) && GoneName(g) != "entry" && GoneName(g) != "/at:deleted-entry"
    ensures DEL_OPEN <= Show(Tok(GoneName(g), g.open))
  {
    GoneNames();
    VideoPlain(g.video);
    PlainAppend(g.video + "\"", g.attrs);
    PlainAppend(REF, g.video + "\"" + g.attrs);
    PlainAppend(GONE, REF + (g.video + "\"" + g.attrs));
    var n, ws := GoneName(g), g.open;
    hide PlainName, IsVideoId;
    assert n == GONE + (REF + (g.video + "\"" + g.attrs));
    assert n[16] == ' ' && |n| > 18;
    assert Show(Tok(n, ws)) == ("<" + GONE) + (REF + (g.video + "\"" + g.attrs) + ">" + ws);
    PrefixExtends(DEL_OPEN, "<" + GONE, REF + (g.video + "\"" + g.attrs) + ">" + ws);
  }

  lemma VideoPlain(v: string)
    requires IsVideoId(v)
    ensures PlainName(v + "\"")
  {
  }

  lemma GoneToksOk(g: Gone)
    requires GoneOk(g)
    ensures ToksOk(GoneHead(g)) && ToksOk([Tok("/at:deleted-entry", g.gap)])
    ensures NotBefore(GoneHead(g), |GoneHead(g)|, "/at:deleted-entry")
    ensures Outside(GoneHead(g)) && Outside([Tok("/at:deleted-entry", g.gap)])
    ensures FirstTag(GoneHead(g), DEL_OPEN) == 0
  {
    GoneNamePlain(g);
    GoneNames();
    InnerIsAround(g);
    var first, close := Tok(GoneName(g), g.open), Tok("/at:deleted-entry", g.gap);
    assert '<' !in g.open && '<' !in g.gap;
    hide GoneOk, GoneName, PlainName, Inner;
    PlainTok(first);
    PlainTok(close);
    CloseIsOutside(g.gap);
    assert Outside(Inner(g)) && NotBefore(Inner(g), |Inner(g)|, "/at:deleted-entry");
    hide Around, Outside, NotBefore, TokOk, Show, FirstTag;
    HeadOk(first, Inner(g), DEL_OPEN);
    NotBeforeCons(first, Inner(g), "/at:deleted-entry");
  }

  lemma CloseIsOutside(ws: string)
    requires '<' !in ws
    ensures Outside([Tok("/at:deleted-entry", ws)]) && ToksOk([Tok("/at:deleted-entry", ws)])
  {
    GoneNames();
    PlainTok(Tok("/at:deleted-entry", ws));
    hide TokOk;
  }

  lemma HeadOk(first: Tok, inner: seq<Tok>, open: string)
    requires TokOk(first) && first.name != "entry" && open <= Show(first) && Outside(inner)
    ensures Outside([first] + inner) && ToksOk([first] + inner) && FirstTag([first] + inner, open) == 0
  {
    hide TokOk, Show;
    NotBeforeCons(first, inner, "entry");
  }

  lemma NotBeforeCons(first: Tok, inner: seq<Tok>, name: string)
    requires first.name != name && NotBefore(inner, |inner|, name)
    ensures NotBefore([first] + inner, |[first] + inner|, name)
  {
    var ts := [first] + inner;
    assert forall i :: 0 < i < |ts| ==> ts[i] == inner[i - 1];
  }

  function GoneToks(g: Gone): seq<Tok> { GoneHead(g) + [Tok("/at:deleted-entry", g.gap)] }

  /** The tags `us` are those of the element, then `rest`. */
  ghost predicate Starts(us: seq<Tok>, g: Gone, rest: seq<Tok>) {
    us == GoneHead(g) + ([Tok("/at:deleted-entry", g.gap)] + rest)
  }

  lemma RenderGone(us: seq<Tok>, g: Gone, rest: seq<Tok>)
    requires Starts(us, g, rest)
    ensures Render(us) == GoneText(g) + (g.gap + Render(rest))
  {
    GoneNames();
    var close := Tok("/at:deleted-entry", g.gap);
    RenderAppend(GoneHead(g), [close] + rest);
    assert ([close] + rest)[1..] == rest;
    ShowIs(close);
    var head := Render(GoneHead(g));
    hide GoneHead, Open, Show;
    Assoc(DEL_CLOSE, g.gap, Render(rest));
    Assoc(head, DEL_CLOSE, g.gap + Render(rest));
  }

  lemma {:induction false} FirstTagAfter(a: seq<Tok>, b: seq<Tok>, p: string)
    requires forall i :: 0 <= i < |a| ==> !(p <= Show(a[i]))
    ensures FirstTag(a + b, p) == |a| + FirstTag(b, p)
  {
    hide Show;
    if a == [] {
      assert a + b == b;
    } else {
      assert (a + b)[1..] == a[1..] + b;
      FirstTagAfter(a[1..], b, p);
    }
  }

  lemma DeletionsUnfold(s: string, pos: nat, n: nat, block: string, after: string, e: Entry)
    requires Find(s, DEL_OPEN) == pos <= |s| && s[pos..] == block + after
    requires Find(block + after, DEL_CLOSE) == n && |block| == n + |DEL_CLOSE|
    requires DeletedEntry(block) == [e]
    ensures Deletions(s) == [e] + Deletions(after)
  {
    hide Find, DeletedEntry;
    var end := pos + |block|;
    assert |DEL_CLOSE| > 0;
    assert s == s[..pos] + (block + after);
    assert s[pos..end] == block && s[end..] == after;
    assert DeletionEnd(s, pos) == end;
  }

  lemma FirstTagHead(a: seq<Tok>, b: seq<Tok>, p: string)
    requires a != [] && FirstTag(a, p) == 0 && p <= Show(a[0])
    ensures FirstTag(a + b, p) == 0
  {
  }

  lemma GoneTextLength(g: Gone)
    ensures |GoneText(g)| == |Render(GoneHead(g))| + |DEL_CLOSE|
  {
  }

  /** Where the element is found. */
  lemma GoneStarts(gap: string, pre: seq<Tok>, us: seq<Tok>) returns (s: string, pos: nat)
    requires '<' !in gap && ToksOk(pre) && NoDeletion(pre) && ToksOk(us) && us != [] && FirstTag(us, DEL_OPEN) == 0
    ensures s == gap + Render(pre + us)
    ensures Find(s, DEL_OPEN) == pos <= |s| && s[pos..] == Render(us)
  {
    hide Find, Render, FirstTag, TokOk, Show;
    s, pos := gap + Render(pre + us), |gap| + |Render(pre)|;
    DelPattern();
    ToksOkAppend(pre, us);
    FirstTagAfter(pre, us, DEL_OPEN);
    FindTag(pre + us, DEL_OPEN);
    FindSkip(gap, Render(pre + us), DEL_OPEN);
    RenderAppend(pre, us);
    assert (pre + us)[..|pre|] == pre;
    assert s == (gap + Render(pre)) + Render(us);
  }

  /** Where it ends. */
  lemma GoneEnds(us: seq<Tok>, g: Gone, rest: seq<Tok>)
    requires GoneOk(g) && ToksOk(rest) && Starts(us, g, rest)
    ensures ToksOk(us) && us != [] && FirstTag(us, DEL_OPEN) == 0
    ensures Find(Render(us), DEL_CLOSE) == |Render(GoneHead(g))|
  {
    var head, close := GoneHead(g), Tok("/at:deleted-entry", g.gap);
    GoneToksOk(g);
    GoneNames();
    assert head != [] && DEL_OPEN <= Show(head[0]);
    hide Find, Render, FirstTag, GoneHead, GoneOk, TokOk, Show, PlainName;
    ToksOkAppend([close], rest);
    ToksOkAppend(head, [close] + rest);
    FirstTagHead(head, [close] + rest, DEL_OPEN);
    assert us[|head|] == close && us[..|head|] == head;
    FindOpen("", us, "/at:deleted-entry", |head|);
    assert "" + Render(us) == Render(us);
  }

  /** One deletion element is consumed, and the scan goes on behind it. */
  lemma GoneStep(gap: string, pre: seq<Tok>, us: seq<Tok>, g: Gone, rest: seq<Tok>)
    requires '<' !in gap && ToksOk(pre) && NoDeletion(pre) && GoneOk(g) && ToksOk(rest) && Starts(us, g, rest)
    ensures Deletions(gap + Render(pre + us)) == [GoneEntry(g)] + Deletions(g.gap + Render(rest))
  {
    OkHasVideo(g);
    hide *;
    DeletionReads(g);
    GoneTextLength(g);
    GoneEnds(us, g, rest);
    var s, pos := GoneStarts(gap, pre, us);
    RenderGone(us, g, rest);
    DeletionsUnfold(s, pos, |Render(GoneHead(g))|, GoneText(g), g.gap + Render(rest), GoneEntry(g));
  }

  lemma OkHasVideo(g: Gone)
    requires GoneOk(g)
    ensures IsVideoId(g.video)
  {
  }

  lemma GoneToksAre(g: Gone, rest: seq<Tok>)
    requires GoneOk(g)
    ensures Starts(GoneToks(g) + rest, g, rest)
    ensures Outside(GoneToks(g)) && ToksOk(GoneToks(g)) && '<' !in g.gap
  {
    GoneToksOk(g);
    var close := [Tok("/at:deleted-entry", g.gap)];
    assert '<' !in g.gap;
    hide GoneHead, GoneOk, TokOk;
    OutsideAppend(GoneHead(g), close);
    Assoc(GoneHead(g), close, rest);
  }
}

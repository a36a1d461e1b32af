/** The channel id that a text names: the search behind the three markers. */
module AtomMarkers {
  import opened Atom
  import opened AtomFeed
  import opened Base
  import opened Text
  import SubsSpec

  // ---- the markers, in their order ----------------------------------------

  /** `i` is the first place where `p` occurs. */
  ghost predicate FirstAt(s: string, p: string, i: nat) {
    i <= |s| && p <= s[i..] && forall j :: 0 <= j < i ==> !(p <= s[j..])
  }

  lemma FindIsFirstAt(s: string, p: string, i: nat)
    requires FirstAt(s, p, i)
    ensures Find(s, p) == i
  {
    FindIsFirst(s, p);
  }

  /** The first occurrence of the marker, which ends in `UC`, is where a channel id starts. */
  ghost predicate Names(s: string, marker: string, c: string)
    requires |marker| >= 2
  {
    exists i: nat :: FirstAt(s, marker, i) && IsChannelId(c) && c == Take(s[i + |marker| - 2..], 24)
  }

  lemma AtMarkerMeaning(s: string, marker: string, c: string)
    requires |marker| >= 2
    ensures AtMarker(s, marker) == Some(c) <==> Names(s, marker, c)
  {
    hide IsChannelId, Find;
    FindIsFirst(s, marker);
    var k := Find(s, marker);
    if k <= |s| {
      assert FirstAt(s, marker, k);
    }
    forall i: nat | FirstAt(s, marker, i) ensures i == k { FindIsFirstAt(s, marker, i); }
  }

  /** `find_channel_id`: a later marker is looked at only when no earlier one names a channel. */
  lemma {:induction false} FirstMarkerMeaning(s: string, markers: seq<string>, c: string)
    requires forall i :: 0 <= i < |markers| ==> |markers[i]| >= 2
    ensures FirstMarker(s, markers) == Some(c) <==>
      exists k :: 0 <= k < |markers| && Names(s, markers[k], c) && NoneNames(s, markers[..k])
  {
    hide Names, AtMarker;
    if markers != [] {
      var rest := markers[1..];
      FirstMarkerMeaning(s, rest, c);
      AtMarkerMeaning(s, markers[0], c);
      assert markers[..0] == [];
      if AtMarker(s, markers[0]).Some? {
        var d := AtMarker(s, markers[0]).value;
        AtMarkerMeaning(s, markers[0], d);
        assert forall k :: 0 < k < |markers| ==> markers[..k][0] == markers[0];
      } else {
        forall d ensures !Names(s, markers[0], d) { AtMarkerMeaning(s, markers[0], d); }
        forall k | 0 <= k < |rest| ensures NoneNames(s, rest[..k]) <==> NoneNames(s, markers[..k + 1]) {
          NoneNamesCons(s, markers, k);
        }
        assert forall k :: 0 < k < |markers| ==> markers[k] == rest[k - 1];
      }
    }
  }

  ghost predicate NoneNames(s: string, markers: seq<string>)
    requires forall i :: 0 <= i < |markers| ==> |markers[i]| >= 2
  {
    forall i, d :: 0 <= i < |markers| ==> !Names(s, markers[i], d)
  }

  lemma NoneNamesCons(s: string, markers: seq<string>, k: nat)
    requires k < |markers| && forall i :: 0 <= i < |markers| ==> |markers[i]| >= 2
    requires k + 1 <= |markers| && forall d :: !Names(s, markers[0], d)
    ensures NoneNames(s, markers[1..][..k]) <==> NoneNames(s, markers[..k + 1])
  {
    hide Names;
    var a, b := markers[1..][..k], markers[..k + 1];
    assert forall i :: 0 <= i < k ==> a[i] == b[i + 1];
    assert b[0] == markers[0];
    if NoneNames(s, a) {
      forall i, d | 0 <= i < |b| ensures !Names(s, b[i], d) {
        if i > 0 { assert b[i] == a[i - 1]; }
      }
    }
  }

  /** A field is the text between the first opening tag and the next closing one; without either there is none. */
  lemma BetweenIff(s: string, start: string, end: string, m: string)
    ensures Between(s, start, end) == Some(m) <==>
      exists i: nat :: FirstAt(s, start, i) && i + |start| + |m| <= |s|
        && FirstAt(s[i + |start|..], end, |m|) && m == s[i + |start|..][..|m|]
  {
    hide Find;
    FindIsFirst(s, start);
    var i := Find(s, start);
    if i <= |s| {
      assert FirstAt(s, start, i);
      var rest := s[i + |start|..];
      FindIsFirst(rest, end);
      if Find(rest, end) <= |rest| {
        assert FirstAt(rest, end, Find(rest, end));
      }
      if FirstAt(rest, end, |m|) {
        FindIsFirstAt(rest, end, |m|);
      }
    }
    forall k: nat | FirstAt(s, start, k) ensures k == i { FindIsFirstAt(s, start, k); }
  }

  /**
   * The three markers in their order: the tag, the path of a channel's page, the query of a feed's
   * address. A later one counts only when no earlier one is followed by a well-formed id.
   */
  lemma ScanMeaning(s: string, c: string)
    ensures ScanChannel(s) == Some(c) <==>
      || Names(s, "<yt:channelId>UC", c)
      || (NamesNone(s, "<yt:channelId>UC") && Names(s, "/channel/UC", c))
      || (NamesNone(s, "<yt:channelId>UC") && NamesNone(s, "/channel/UC") && Names(s, "channel_id=UC", c))
  {
    ThreeMarkers();
    ScanOne(s, MARKERS, c);
    hide MARKERS, Names, NamesNone, FirstMarker, AtMarker;
  }

  ghost predicate NamesNone(s: string, marker: string)
    requires |marker| >= 2
  {
    forall d :: !Names(s, marker, d)
  }

  lemma ThreeMarkers()
    ensures MARKERS == ["<yt:channelId>UC", "/channel/UC", "channel_id=UC"]
    ensures forall i :: 0 <= i < |MARKERS| ==> |MARKERS[i]| >= 2
  {
  }

  lemma NoneAtMarker(s: string, marker: string)
    requires |marker| >= 2
    ensures AtMarker(s, marker) == None <==> NamesNone(s, marker)
  {
    hide AtMarker, Names;
    if AtMarker(s, marker).Some? {
      AtMarkerMeaning(s, marker, AtMarker(s, marker).value);
    } else {
      forall d ensures !Names(s, marker, d) { AtMarkerMeaning(s, marker, d); }
    }
  }

  lemma ScanOne(s: string, ms: seq<string>, c: string)
    requires |ms| == 3 && forall i :: 0 <= i < |ms| ==> |ms[i]| >= 2
    ensures FirstMarker(s, ms) == Some(c) <==>
      || Names(s, ms[0], c)
      || (NamesNone(s, ms[0]) && Names(s, ms[1], c))
      || (NamesNone(s, ms[0]) && NamesNone(s, ms[1]) && Names(s, ms[2], c))
  {
    assert ms[1..][0] == ms[1] && ms[1..][1..] == ms[2..] && ms[2..][0] == ms[2] && ms[2..][1..] == [];
    assert FirstMarker(s, []) == None;
    forall i | 0 <= i < 3 ensures AtMarker(s, ms[i]) == Some(c) <==> Names(s, ms[i], c) {
      AtMarkerMeaning(s, ms[i], c);
    }
    forall i | 0 <= i < 3 ensures AtMarker(s, ms[i]) == None <==> NamesNone(s, ms[i]) { NoneAtMarker(s, ms[i]); }
    hide AtMarker, Names, NamesNone;
    assert FirstMarker(s, ms[2..]) == AtMarker(s, ms[2]);
  }

  const MARK: string := "/channel/UC"

  lemma IdTag()
    ensures TagPattern(MARKERS[0]) && Open("yt:channelId") <= MARKERS[0] && PlainName("yt:channelId")
  {
  }

  lemma {:induction false} NoneStarts(ts: seq<Tok>, p: string)
    requires ToksOk(ts) && forall i :: 0 <= i < |ts| ==> ts[i].name != "yt:channelId"
    requires Open("yt:channelId") <= p && PlainName("yt:channelId")
    ensures FirstTag(ts, p) == |ts|
  {
    hide Show, Open;
    if ts != [] {
      NameMatches("yt:channelId", ts[0]);
      if p <= Show(ts[0]) {
        PrefixOfPrefix(Open("yt:channelId"), p, Show(ts[0]));
      }
      assert ToksOk(ts[1..]);
      NoneStarts(ts[1..], p);
    }
  }

  lemma PrefixOfPrefix<T>(a: seq<T>, b: seq<T>, c: seq<T>)
    requires a <= b && b <= c
    ensures a <= c
  {
  }

  lemma AtMarkerIs(s: string, marker: string, pos: nat, c: string)
    requires |marker| == 11 && IsChannelId(c)
    requires Find(s, marker) == pos && pos + 9 <= |s| && Take(s[pos + 9..], 24) == c
    ensures AtMarker(s, marker) == Some(c)
  {
    hide Find, IsChannelId;
  }

  lemma SecondOf(s: string, markers: seq<string>, c: string)
    requires |markers| >= 2 && forall i :: 0 <= i < |markers| ==> |markers[i]| >= 2
    requires AtMarker(s, markers[0]) == None && AtMarker(s, markers[1]) == Some(c)
    ensures FirstMarker(s, markers) == Some(c)
  {
    hide AtMarker;
    assert markers[1..][0] == markers[1];
    assert FirstMarker(s, markers[1..]) == Some(c);
  }

  lemma SecondMarker(s: string, pos: nat, c: string)
    requires AtMarker(s, MARKERS[0]) == None && IsChannelId(c)
    requires Find(s, MARK) == pos && pos + 9 <= |s| && Take(s[pos + 9..], 24) == c
    ensures ScanChannel(s) == Some(c)
  {
    MarkersAre();
    hide Find, IsChannelId, AtMarker, FirstMarker;
    AtMarkerIs(s, MARK, pos, c);
    SecondOf(s, MARKERS, c);
  }

  lemma MarkersAre()
    ensures |MARKERS| == 3 && MARKERS[1] == MARK && |MARK| == 11
    ensures forall i :: 0 <= i < |MARKERS| ==> |MARKERS[i]| >= 2
  {
  }

  // ---- the shape of an id -------------------------------------------------

  /** A character of the URL-safe base64 alphabet (section 5 of RFC 4648), by its code. */
  predicate Base64Url(c: char) {
    var n := c as int;
    65 <= n <= 90 || 97 <= n <= 122 || 48 <= n <= 57 || n == 45 || n == 95
  }

  lemma IdShapes(s: string)
    ensures IsVideoId(s) <==> |s| == 11 && forall c :: c in s ==> Base64Url(c)
    ensures IsChannelId(s) <==> |s| == 24 && s[0] == 'U' && s[1] == 'C' && forall c :: c in s ==> Base64Url(c)
  {
    assert forall c :: Base64Url(c) <==> IdChar(c);
    hide Base64Url, IdChar;
    assert (forall c :: c in s ==> Base64Url(c)) <==> AllIdChars(s);
  }

  // ---- the topic of a channel ---------------------------------------------

  const FEEDS: string := "https://www.youtube.com/feeds/videos.xml?"

  lemma TopicIs(c: string)
    ensures SubsSpec.TopicFor(c) == FEEDS + ("channel_id=" + c)
  {
    assert FEEDS == "https://www.youtube.com" + "/feeds/videos.xml" + "?";
  }

  /** Different channels have different topics. */
  lemma TopicsDiffer(c: string, d: string)
    requires SubsSpec.TopicFor(c) == SubsSpec.TopicFor(d)
    ensures c == d
  {
    TopicIs(c);
    TopicIs(d);
    hide FEEDS, SubsSpec.TopicFor;
    var k := |FEEDS + "channel_id="|;
    assert (FEEDS + ("channel_id=" + c))[k..] == c;
    assert (FEEDS + ("channel_id=" + d))[k..] == d;
  }

  lemma InFront(k: nat)
    requires k < 52
    ensures
      var t := FEEDS + "channel_id=";
      && |t| == 52 && t[k] != '<'
      && (t[k] == '/' ==> k < 51 && t[k + 1] != 'c')
      && (k < 41 && t[k] == 'c' ==> t[k + 1] != 'h')
  {
  }

  lemma InTopic(c: string, j: nat)
    requires IsChannelId(c) && j < 76
    ensures
      var s := FEEDS + "channel_id=" + c;
      && |s| == 76 && s[j] != '<'
      && (s[j] == '/' ==> j < 51 && s[j + 1] != 'c')
      && (j < 41 && s[j] == 'c' ==> s[j + 1] != 'h')
  {
    InFront(if j < 52 then j else 0);
    hide FEEDS;
    var t := FEEDS + "channel_id=";
    var s := t + c;
    if j < 52 {
      assert s[j] == t[j] && (j < 51 ==> s[j + 1] == t[j + 1]);
    } else {
      assert s[j] == c[j - 52];
      assert IdChar(s[j]);
    }
  }

  lemma MarkersStart()
    ensures |"<yt:channelId>UC"| == 16 && "<yt:channelId>UC"[0] == '<'
    ensures |"/channel/UC"| == 11 && "/channel/UC"[0] == '/' && "/channel/UC"[1] == 'c'
    ensures |"channel_id=UC"| == 13 && "channel_id=UC"[0] == 'c' && "channel_id=UC"[1] == 'h'
    ensures "channel_id=UC" == "channel_id=" + "UC"
  {
  }

  /** The scanner reads a channel's id back from its topic. */
  lemma TopicNamesItsChannel(c: string)
    requires IsChannelId(c)
    ensures ScanChannel(SubsSpec.TopicFor(c)) == Some(c)
  {
    TopicIs(c);
    MarkersStart();
    TopicScan(c, "<yt:channelId>UC", "/channel/UC", "channel_id=UC");
    hide IsChannelId, Names, NamesNone, FEEDS;
    Assoc(FEEDS, "channel_id=", c);
    ScanMeaning(SubsSpec.TopicFor(c), c);
  }

  lemma TopicScan(c: string, m1: string, m2: string, m3: string)
    requires IsChannelId(c) && |m1| == 16 && |m2| == 11 && |m3| == 13 && m3 == "channel_id=" + "UC"
    requires m1[0] == '<' && m2[0] == '/' && m2[1] == 'c' && m3[0] == 'c' && m3[1] == 'h'
    ensures var s := FEEDS + "channel_id=" + c; NamesNone(s, m1) && NamesNone(s, m2) && Names(s, m3, c)
  {
    InFront(0);
    var t := FEEDS + "channel_id=";
    var s := t + c;
    InTopic(c, 0);
    forall j | 0 <= j <= |s| ensures !(m1 <= s[j..]) && !(m2 <= s[j..]) && (j < 41 ==> !(m3 <= s[j..])) {
      if j < 76 {
        InTopic(c, j);
        assert s[j..][0] == s[j] && (j < 75 ==> s[j..][1] == s[j + 1]);
      }
    }
    assert s[41..] == "channel_id=" + c;
    assert m3 <= s[41..];
    assert s[52..] == c;
    assert FirstAt(s, m3, 41) && c == Take(s[41 + |m3| - 2..], 24);
    hide IsChannelId, FEEDS;
  }
}

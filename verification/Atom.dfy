/** The Atom scanner of `src/atom.rs`. */
module Atom {
  import opened Base
  import opened Text
  import Entities
  import EventLog

  datatype Entry = Entry(kind: string, channelId: string, videoId: string, title: string, ts: string)

  // ---- fields -------------------------------------------------------------

  /** `between`: the text after the first `start`, up to the first `end` behind it. */
  function Between(s: string, start: string, end: string): (r: Option<string>)
    ensures r.Some? ==> |r.value| + |start| <= |s|
  {
    var i := Find(s, start);
    if i > |s| then None
    else
      var rest := s[i + |start|..];
      var j := Find(rest, end);
      if j > |rest| then None else Some(rest[..j])
  }

  function Open(name: string): string { "<" + name + ">" }

  function Close(name: string): string { "</" + name + ">" }

  /** `tag`: the namespaced tag first, then the bare one. */
  function Tag(s: string, name: string): Option<string> {
    var yt := Between(s, Open("yt:" + name), Close("yt:" + name));
    if yt.Some? then yt else Between(s, Open(name), Close(name))
  }

  predicate IdChar(c: char) {
    'a' <= c <= 'z' || 'A' <= c <= 'Z' || '0' <= c <= '9' || c == '_' || c == '-'
  }

  predicate AllIdChars(s: string) { forall i :: 0 <= i < |s| ==> IdChar(s[i]) }

  predicate IsVideoId(s: string) { |s| == 11 && AllIdChars(s) }

  predicate IsChannelId(s: string) { |s| == 24 && "UC" <= s && AllIdChars(s) }

  /** The candidate behind the first occurrence of one marker, which ends in `UC`. */
  function AtMarker(s: string, marker: string): (r: Option<string>)
    requires |marker| >= 2
    ensures r.Some? ==> IsChannelId(r.value)
  {
    var pos := Find(s, marker);
    if pos > |s| then None
    else
      var cand := Take(s[pos + |marker| - 2..], 24);
      if IsChannelId(cand) then Some(cand) else None
  }

  const MARKERS: seq<string> := ["<yt:channelId>UC", "/channel/UC", "channel_id=UC"]

  function FirstMarker(s: string, markers: seq<string>): (r: Option<string>)
    requires forall i :: 0 <= i < |markers| ==> |markers[i]| >= 2
    ensures r.Some? ==> IsChannelId(r.value)
  {
    if markers == [] then None
    else
      var c := AtMarker(s, markers[0]);
      if c.Some? then c else FirstMarker(s, markers[1..])
  }

  /** The channel id a text names, by its markers in their order. */
  function ScanChannel(s: string): (r: Option<string>)
    ensures r.Some? ==> IsChannelId(r.value)
  {
    FirstMarker(s, MARKERS)
  }

  /** `find_channel_id`: a search loop over the markers. */
  method FindChannelId(s: string) returns (r: Option<string>)
    ensures r == ScanChannel(s)
  {
    assert MARKERS[0..] == MARKERS;
    for i := 0 to |MARKERS|
      invariant FirstMarker(s, MARKERS) == FirstMarker(s, MARKERS[i..])
    {
      assert MARKERS[i..][1..] == MARKERS[i + 1..];
      var c := AtMarker(s, MARKERS[i]);
      if c.Some? {
        return c;
      }
    }
    return None;
  }

  function GetOr(o: Option<string>, d: string): string { match o case Some(s) => s case None => d }

  function TrimOpt(o: Option<string>): Option<string> { match o case Some(s) => Some(Trim(s)) case None => None }

  // ---- one block ----------------------------------------------------------

  function DeletedEntry(block: string): seq<Entry> {
    var video := GetOr(TrimOpt(Between(block, "ref=\"yt:video:", "\"")), "");
    if IsVideoId(video)
    then [Entry("deleted", GetOr(ScanChannel(block), ""), video, "", "")]
    else []
  }

  /** The tag's channel id when it is well-formed, the scanner's otherwise. */
  function BlockChannel(block: string): Option<string> {
    var c := TrimOpt(Tag(block, "channelId"));
    if c.Some? && IsChannelId(c.value) then c else ScanChannel(block)
  }

  function KindOf(published: Option<string>, updated: Option<string>): string {
    if published.Some? && updated.Some? && published.value != updated.value then "updated" else "new"
  }

  function BlockTitle(block: string): string {
    match Tag(block, "title") case Some(t) => Entities.DecodeEntities(Trim(t)) case None => ""
  }

  function MakeEntry(video: string, channel: string, title: string,
                     published: Option<string>, updated: Option<string>): Entry
  {
    Entry(KindOf(published, updated), channel, video, title, GetOr(updated, GetOr(published, "")))
  }

  function BlockEntry(block: string): seq<Entry> {
    var video, channel := TrimOpt(Tag(block, "videoId")), BlockChannel(block);
    if video.Some? && channel.Some? && IsVideoId(video.value) && IsChannelId(channel.value)
    then [MakeEntry(video.value, channel.value, BlockTitle(block),
                    TrimOpt(Tag(block, "published")), TrimOpt(Tag(block, "updated")))]
    else []
  }

  lemma BlockEntryWellFormed(block: string)
    ensures forall e :: e in BlockEntry(block) ==> WellFormed(e)
  {
    hide Tag, BlockChannel, IsVideoId, IsChannelId, BlockTitle, TrimOpt;
  }

  lemma DeletedEntryWellFormed(block: string)
    ensures forall e :: e in DeletedEntry(block) ==> WellFormed(e)
  {
    hide Between, ScanChannel, IsVideoId, IsChannelId, TrimOpt;
  }

  /** What `parse` may yield, whatever the body holds. */
  predicate WellFormed(e: Entry) {
    && EventLog.IsKind(e.kind)
    && IsVideoId(e.videoId)
    && (IsChannelId(e.channelId) || (e.kind == "deleted" && e.channelId == ""))
  }

  // ---- the two scans ------------------------------------------------------

  const DEL_OPEN: string := "<at:deleted-entry"
  const DEL_CLOSE: string := "</at:deleted-entry>"
  const ENTRY_OPEN: string := "<entry>"
  const ENTRY_CLOSE: string := "</entry>"

  /** End of the deletion block that starts at `pos`. */
  function DeletionEnd(rest: string, pos: nat): (end: nat)
    requires pos < |rest|
    ensures pos < end <= |rest|
  {
    var e := Find(rest[pos..], DEL_CLOSE);
    if e <= |rest| - pos then pos + e + |DEL_CLOSE| else |rest|
  }

  function Deletions(rest: string): (r: seq<Entry>)
    ensures forall e :: e in r ==> WellFormed(e)
    decreases |rest|
  {
    var pos := Find(rest, DEL_OPEN);
    if pos > |rest| then []
    else
      var end := DeletionEnd(rest, pos);
      DeletedEntryWellFormed(rest[pos..end]);
      DeletedEntry(rest[pos..end]) + Deletions(rest[end..])
  }

  /** End of the entry block whose text starts at `start`. */
  function EntryEnd(rest: string, start: nat): (end: nat)
    requires start <= |rest|
    ensures start <= end <= |rest|
  {
    var e := Find(rest[start..], ENTRY_CLOSE);
    if e <= |rest| - start then start + e else |rest|
  }

  /** Start and end of the next entry block. */
  function NextEntry(rest: string): (b: Option<(nat, nat)>)
    ensures b.Some? ==> 0 < b.value.0 <= b.value.1 <= |rest|
  {
    var pos := Find(rest, ENTRY_OPEN);
    if pos > |rest| then None
    else
      var start := pos + |ENTRY_OPEN|;
      Some((start, EntryEnd(rest, start)))
  }

  function Behind(rest: string, end: nat): string
    requires end <= |rest|
  {
    rest[Min(end + |ENTRY_CLOSE|, |rest|)..]
  }

  function Regulars(rest: string): (r: seq<Entry>)
    ensures forall e :: e in r ==> WellFormed(e)
    decreases |rest|
  {
    match NextEntry(rest)
    case None => []
    case Some((start, end)) =>
      BlockEntryWellFormed(rest[start..end]);
      BlockEntry(rest[start..end]) + Regulars(Behind(rest, end))
  }

  /** Everything a body yields: the deletions, then the regular entries. */
  function Entries(body: string): (r: seq<Entry>)
    ensures forall e :: e in r ==> WellFormed(e)
  {
    Deletions(body) + Regulars(body)
  }

  /**
   * `parse`: two scanning loops over `rest`. It ends on every body, and yields only entries with a
   * well-formed video id, one of the three kinds, and a well-formed channel id that may be missing
   * for deletions only.
   */
  method Parse(body: string) returns (out: seq<Entry>)
    ensures out == Entries(body)
    ensures forall e :: e in out ==> WellFormed(e)
  {
    hide Find, DeletedEntry, BlockEntry;
    out := [];
    var rest := body;
    while true
      invariant Deletions(body) == out + Deletions(rest)
      decreases |rest|
    {
      var pos := Find(rest, DEL_OPEN);
      if pos > |rest| {
        break;
      }
      var end := DeletionEnd(rest, pos);
      Assoc(out, DeletedEntry(rest[pos..end]), Deletions(rest[end..]));
      out := out + DeletedEntry(rest[pos..end]);
      rest := rest[end..];
    }
    assert Deletions(rest) == [];
    assert out == Deletions(body);
    rest := body;
    while true
      invariant Deletions(body) + Regulars(body) == out + Regulars(rest)
      decreases |rest|
    {
      var pos := Find(rest, ENTRY_OPEN);
      if pos > |rest| {
        break;
      }
      var start := pos + |ENTRY_OPEN|;
      var end := EntryEnd(rest, start);
      var advance := end + |ENTRY_CLOSE|;
      assert NextEntry(rest) == Some((start, end));
      Assoc(out, BlockEntry(rest[start..end]), Regulars(Behind(rest, end)));
      out := out + BlockEntry(rest[start..end]);
      if advance >= |rest| {
        rest := "";
        break;
      }
      rest := rest[advance..];
    }
    assert Regulars(rest) == [];
  }

  /** For everything `parse` may yield, the dedup key tells video, timestamp and kind apart. */
  lemma EntryKeysInjective(e: Entry, e': Entry)
    requires WellFormed(e) && WellFormed(e')
    requires EventLog.DedupKey(e.videoId, e.ts, e.kind) == EventLog.DedupKey(e'.videoId, e'.ts, e'.kind)
    ensures e.videoId == e'.videoId && e.ts == e'.ts && e.kind == e'.kind
  {
    EventLog.DedupKeyInjective(e.videoId, e.ts, e.kind, e'.videoId, e'.ts, e'.kind);
  }
}

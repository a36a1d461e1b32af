/** The subscription registry (`src/subs.rs`): two-way index, tombstones, and its file. */
module SubsSpec {
  import opened Base
  import opened Text
  import Percent
  import Utf8

  const UNSUB_GRACE: nat := 900
  const MAX_ERR: nat := 200

  /** Seconds since the epoch: positive, and far from the end of `u64`. */
  type Clock = t: nat | 0 < t < 0x8000_0000_0000_0000 witness 1

  datatype Sub = Sub(
    channelId: string,
    token: string,
    topic: string,
    secret: string,
    state: string,
    leaseSeconds: U64,
    expiresAt: U64,
    lastSubscribeAt: U64,
    failCount: U32,
    nextAttemptAt: U64,
    lastError: string)

  /** A removed token that can still answer the hub's unsubscribe check. */
  datatype Tomb = Tomb(topic: string, deadline: nat)

  datatype Reg = Reg(subs: map<string, Sub>, byToken: map<string, string>, unsub: map<string, Tomb>)

  function TopicFor(channelId: string): string {
    "https://www.youtube.com" + "/feeds/videos.xml" + "?channel_id=" + channelId
  }

  function NewSub(channelId: string, token: string, secret: string): Sub {
    Sub(channelId, token, TopicFor(channelId), secret, "pending", 0, 0, 0, 0, 0, "")
  }

  predicate LeaseExpired(s: Sub, now: nat) { s.expiresAt > 0 && now >= s.expiresAt }

  function ClampError(s: string): string { Take(s, MAX_ERR) }

  /** An error of up to 200 characters is kept as it is, a longer one is cut there. */
  lemma ErrorCut(s: string)
    ensures ClampError(s) == if |s| <= 200 then s else s[..200]
  {
  }

  // ---- operations ---------------------------------------------------------

  function ByToken(r: Reg, token: string): Option<Sub> {
    if token in r.byToken && r.byToken[token] in r.subs then Some(r.subs[r.byToken[token]]) else None
  }

  function InsertReg(r: Reg, s: Sub): Reg {
    r.(byToken := r.byToken[s.token := s.channelId], subs := r.subs[s.channelId := s])
  }

  function UpdateReg(r: Reg, s: Sub): Reg {
    var stale := if s.channelId in r.subs && r.subs[s.channelId].token != s.token
                 then {r.subs[s.channelId].token} else {};
    r.(byToken := (r.byToken - stale)[s.token := s.channelId], subs := r.subs[s.channelId := s])
  }

  function Sweep(m: map<string, Tomb>, now: nat): map<string, Tomb> {
    map t | t in m && now < m[t].deadline :: m[t]
  }

  /** `remove` before its sweep. */
  function Bury(r: Reg, channelId: string, now: nat): Reg {
    if channelId in r.subs then
      var s := r.subs[channelId];
      Reg(r.subs - {channelId}, r.byToken - {s.token}, r.unsub[s.token := Tomb(s.topic, now + UNSUB_GRACE)])
    else r
  }

  function RemoveReg(r: Reg, channelId: string, now: nat): Reg {
    if channelId in r.subs then
      var b := Bury(r, channelId, now);
      b.(unsub := Sweep(b.unsub, now))
    else r
  }

  function UnsubTopic(r: Reg, token: string, now: nat): Option<string> {
    if token in r.unsub && now < r.unsub[token].deadline then Some(r.unsub[token].topic) else None
  }

  function ForgetReg(r: Reg, token: string, now: nat): Reg {
    r.(unsub := Sweep(r.unsub - {token}, now))
  }

  // ---- the two-way index --------------------------------------------------

  /** `subs` and `byToken` are mutually inverse. */
  ghost predicate Indexed(r: Reg) {
    && (forall c :: c in r.subs ==>
          r.subs[c].channelId == c && r.subs[c].token in r.byToken && r.byToken[r.subs[c].token] == c)
    && (forall t :: t in r.byToken ==> r.byToken[t] in r.subs && r.subs[r.byToken[t]].token == t)
  }

  /** No token is both live and buried. */
  ghost predicate Separate(r: Reg) { r.byToken.Keys !! r.unsub.Keys }

  /** The token is not another channel's. */
  predicate OwnToken(r: Reg, s: Sub) {
    s.token in r.byToken ==> r.byToken[s.token] == s.channelId
  }

  /**
   * `insert` drops no superseded token, so it keeps the index exactly when the channel is absent or
   * keeps its token, and the token is not another channel's.
   */
  lemma InsertKeepsIndexIff(r: Reg, s: Sub)
    requires Indexed(r)
    ensures Indexed(InsertReg(r, s)) <==>
      (s.channelId in r.subs ==> r.subs[s.channelId].token == s.token) && OwnToken(r, s)
  {
    var q := InsertReg(r, s);
    if s.channelId in r.subs && r.subs[s.channelId].token != s.token {
      var t := r.subs[s.channelId].token;
      assert t in q.byToken && q.byToken[t] == s.channelId;
    } else if !OwnToken(r, s) {
      var c := r.byToken[s.token];
      assert c in q.subs && q.subs[c].token == s.token && q.byToken[s.token] != c;
    } else {
      forall c | c in q.subs
        ensures q.subs[c].channelId == c && q.subs[c].token in q.byToken && q.byToken[q.subs[c].token] == c
      {
        assert c != s.channelId ==> r.byToken[r.subs[c].token] == c;
      }
    }
  }

  /** `update` does drop it, so it needs only that the token is not another channel's. */
  lemma UpdateKeepsIndex(r: Reg, s: Sub)
    requires Indexed(r) && OwnToken(r, s)
    ensures Indexed(UpdateReg(r, s))
    ensures s.channelId in r.subs && r.subs[s.channelId].token != s.token ==>
      ByToken(UpdateReg(r, s), r.subs[s.channelId].token) == None
  {
    var q := UpdateReg(r, s);
    forall c | c in q.subs
      ensures q.subs[c].channelId == c && q.subs[c].token in q.byToken && q.byToken[q.subs[c].token] == c
    {
      if c != s.channelId {
        assert r.byToken[r.subs[c].token] == c;
      }
    }
  }

  lemma RemoveKeepsIndex(r: Reg, channelId: string, now: nat)
    requires Indexed(r) && Separate(r)
    ensures Indexed(RemoveReg(r, channelId, now)) && Separate(RemoveReg(r, channelId, now))
  {
    if channelId in r.subs {
      var q := RemoveReg(r, channelId, now);
      forall c | c in q.subs
        ensures q.subs[c].channelId == c && q.subs[c].token in q.byToken && q.byToken[q.subs[c].token] == c
      {
        assert r.byToken[r.subs[c].token] == c;
      }
      forall t | t in q.byToken ensures q.byToken[t] in q.subs && q.subs[q.byToken[t]].token == t {
        assert t != r.subs[channelId].token;
      }
    }
  }

  // ---- the unsubscribe grace period ---------------------------------------

  datatype Op =
    | Insert(s: Sub)
    | Update(s: Sub)
    | Remove(channelId: string, at: nat)
    | Forget(token: string, at: nat)

  function Apply(r: Reg, op: Op): Reg {
    match op
    case Insert(s) => InsertReg(r, s)
    case Update(s) => UpdateReg(r, s)
    case Remove(c, t) => RemoveReg(r, c, t)
    case Forget(k, t) => ForgetReg(r, k, t)
  }

  function ApplyAll(r: Reg, ops: seq<Op>): Reg {
    if ops == [] then r else Apply(ApplyAll(r, ops[..|ops| - 1]), ops[|ops| - 1])
  }

  /** The same operations on a registry that never sweeps. */
  function ApplyUnswept(r: Reg, op: Op): Reg {
    match op
    case Insert(s) => InsertReg(r, s)
    case Update(s) => UpdateReg(r, s)
    case Remove(c, t) => Bury(r, c, t)
    case Forget(k, t) => r.(unsub := r.unsub - {k})
  }

  function ApplyAllUnswept(r: Reg, ops: seq<Op>): Reg {
    if ops == [] then r else ApplyUnswept(ApplyAllUnswept(r, ops[..|ops| - 1]), ops[|ops| - 1])
  }

  predicate NotAfter(op: Op, now: nat) {
    match op
    case Remove(_, t) => t <= now
    case Forget(_, t) => t <= now
    case _ => true
  }

  ghost predicate SameAnswers(a: Reg, b: Reg, now: nat) {
    && a.subs == b.subs && a.byToken == b.byToken
    && forall t :: UnsubTopic(a, t, now) == UnsubTopic(b, t, now)
  }

  lemma SweepStep(a: Reg, b: Reg, op: Op, now: nat)
    requires SameAnswers(a, b, now) && NotAfter(op, now)
    ensures SameAnswers(Apply(a, op), ApplyUnswept(b, op), now)
  {
    forall t ensures UnsubTopic(Apply(a, op), t, now) == UnsubTopic(ApplyUnswept(b, op), t, now) {
      assert UnsubTopic(a, t, now) == UnsubTopic(b, t, now);
    }
  }

  /** Lazy sweeping never changes an answer at the current time or any later one. */
  lemma {:induction false} SweepingIsInvisible(r: Reg, ops: seq<Op>, now: nat)
    requires forall i :: 0 <= i < |ops| ==> NotAfter(ops[i], now)
    ensures SameAnswers(ApplyAll(r, ops), ApplyAllUnswept(r, ops), now)
  {
    if ops != [] {
      SweepingIsInvisible(r, ops[..|ops| - 1], now);
      SweepStep(ApplyAll(r, ops[..|ops| - 1]), ApplyAllUnswept(r, ops[..|ops| - 1]), ops[|ops| - 1], now);
    }
  }

  /** The operation neither confirms the token nor brings it back to life. */
  predicate LeavesBuried(op: Op, token: string) {
    match op
    case Insert(s) => s.token != token
    case Update(s) => s.token != token
    case Remove(_, _) => true
    case Forget(k, _) => k != token
  }

  lemma {:induction false} StaysBuried(r: Reg, ops: seq<Op>, token: string, tomb: Tomb)
    requires token in r.unsub && r.unsub[token] == tomb
    requires forall c :: c in r.subs ==> r.subs[c].token != token
    requires forall i :: 0 <= i < |ops| ==> LeavesBuried(ops[i], token)
    ensures var q := ApplyAllUnswept(r, ops);
      && token in q.unsub && q.unsub[token] == tomb
      && forall c :: c in q.subs ==> q.subs[c].token != token
  {
    if ops != [] {
      StaysBuried(r, ops[..|ops| - 1], token, tomb);
      assert LeavesBuried(ops[|ops| - 1], token);
    }
  }

  /**
   * A removed token answers with its topic at every moment of the grace period and at none after it,
   * through any later operations but the confirmation of that very token.
   */
  lemma UnsubscribeGrace(r: Reg, channelId: string, at: nat, ops: seq<Op>, now: nat)
    requires Indexed(r) && channelId in r.subs && at <= now
    requires forall i :: 0 <= i < |ops| ==> NotAfter(ops[i], now) && LeavesBuried(ops[i], r.subs[channelId].token)
    ensures var s := r.subs[channelId];
      UnsubTopic(ApplyAll(RemoveReg(r, channelId, at), ops), s.token, now) ==
        if now < at + 900 then Some(s.topic) else None
  {
    var s := r.subs[channelId];
    var gone := RemoveReg(r, channelId, at);
    forall c | c in gone.subs ensures gone.subs[c].token != s.token {
      assert r.byToken[r.subs[c].token] == c;
    }
    SweepingIsInvisible(gone, ops, now);
    StaysBuried(gone, ops, s.token, Tomb(s.topic, at + UNSUB_GRACE));
  }

  // ---- one row of subs.tsv ------------------------------------------------

  /** The five text columns, which are written raw. */
  function RawFields(s: Sub): seq<string> { [s.channelId, s.token, s.topic, s.secret, s.state] }

  function NumFields(s: Sub): seq<string> {
    [Dec(s.leaseSeconds), Dec(s.expiresAt), Dec(s.lastSubscribeAt), Dec(s.failCount), Dec(s.nextAttemptAt)]
  }

  function LegacyFields(s: Sub): seq<string> { RawFields(s) + NumFields(s) }

  function SubFields(s: Sub): seq<string> {
    LegacyFields(s) + [Percent.PctEncode(ClampError(s.lastError))]
  }

  function SubRow(s: Sub): string { Join(SubFields(s), '\t') }

  /** `parse_line`: at least ten columns; the eleventh is optional, further ones are ignored. */
  function ParseSub(line: string): Option<Sub> {
    var p := Split(line, '\t');
    if |p| < 10 then None else ParseColumns(p)
  }

  function ParseColumns(p: seq<string>): Option<Sub>
    requires |p| >= 10
  {
    match (ParseUint(p[5], U64_BOUND), ParseUint(p[6], U64_BOUND), ParseUint(p[7], U64_BOUND),
           ParseUint(p[8], U32_BOUND), ParseUint(p[9], U64_BOUND))
    case (Some(lease), Some(expires), Some(last), Some(fails), Some(next)) =>
      Some(Sub(p[0], p[1], p[2], p[3], p[4], lease, expires, last, fails, next,
               if |p| > 10 then Percent.PctDecode(p[10]) else ""))
    case _ => None
  }

  predicate TabFree(s: Sub) { forall i :: 0 <= i < 5 ==> '\t' !in RawFields(s)[i] }

  lemma DigitsNoTab(d: string)
    requires AllDigits(d)
    ensures '\t' !in d && '\n' !in d && '\r' !in d
  {
  }

  lemma NumFieldsClean(s: Sub)
    ensures forall i :: 0 <= i < 5 ==> '\t' !in NumFields(s)[i] && '\n' !in NumFields(s)[i]
  {
    DigitsNoTab(Dec(s.leaseSeconds));
    DigitsNoTab(Dec(s.expiresAt));
    DigitsNoTab(Dec(s.lastSubscribeAt));
    DigitsNoTab(Dec(s.failCount));
    DigitsNoTab(Dec(s.nextAttemptAt));
  }

  lemma ErrorFieldClean(s: Sub)
    ensures forall c :: c in Percent.PctEncode(ClampError(s.lastError)) ==> c as int >= 0x20
  {
    Percent.EncodedIsClean(ClampError(s.lastError));
  }

  lemma ColumnsRoundTrip(s: Sub, p: seq<string>)
    requires |p| >= 10 && p[..10] == LegacyFields(s)
    ensures ParseColumns(p) == Some(s.(lastError := if |p| > 10 then Percent.PctDecode(p[10]) else ""))
  {
    var f := LegacyFields(s);
    assert forall i :: 0 <= i < 10 ==> p[i] == p[..10][i] == f[i];
    assert f[5] == Dec(s.leaseSeconds) && f[6] == Dec(s.expiresAt) && f[7] == Dec(s.lastSubscribeAt)
        && f[8] == Dec(s.failCount) && f[9] == Dec(s.nextAttemptAt);
    ParseDec(s.leaseSeconds, U64_BOUND);
    ParseDec(s.expiresAt, U64_BOUND);
    ParseDec(s.lastSubscribeAt, U64_BOUND);
    ParseDec(s.failCount, U32_BOUND);
    ParseDec(s.nextAttemptAt, U64_BOUND);
    hide Dec, ParseUint;
  }

  lemma SubFieldsTabFree(s: Sub)
    requires TabFree(s)
    ensures forall i :: 0 <= i < 11 ==> '\t' !in SubFields(s)[i]
  {
    NumFieldsClean(s);
    ErrorFieldClean(s);
    var f := SubFields(s);
    forall i | 0 <= i < 11 ensures '\t' !in f[i] {
      if i < 5 {
        assert f[i] == RawFields(s)[i];
      } else if i < 10 {
        assert f[i] == NumFields(s)[i - 5];
      }
    }
  }

  lemma RowRoundTrip(s: Sub)
    requires TabFree(s)
    ensures ParseSub(SubRow(s)) == Some(s.(lastError := ClampError(s.lastError)))
  {
    SubFieldsTabFree(s);
    SplitJoin(SubFields(s), '\t');
    assert SubFields(s)[..10] == LegacyFields(s);
    ColumnsRoundTrip(s, SubFields(s));
    Percent.RoundTrip(ClampError(s.lastError));
    hide ParseColumns;
  }

  /** Rows of the older ten-column format load, with an empty error. */
  lemma LegacyRowLoads(s: Sub)
    requires TabFree(s)
    ensures ParseSub(Join(LegacyFields(s), '\t')) == Some(s.(lastError := ""))
  {
    SubFieldsTabFree(s);
    var f := LegacyFields(s);
    assert forall i :: 0 <= i < 10 ==> f[i] == SubFields(s)[i];
    SplitJoin(f, '\t');
    assert f[..10] == f;
    ColumnsRoundTrip(s, f);
    hide ParseColumns;
  }

  /** The columns of a row, in their order; an ordinary error stands in the last one as it is. */
  lemma SubRowLayout(s: Sub)
    requires |s.lastError| <= 200 && forall c :: c in s.lastError ==> c as int >= 0x20 && c != '%' && c as int != 0x7f
    ensures SubRow(s) ==
      s.channelId + "\t" + (s.token + "\t" + (s.topic + "\t" + (s.secret + "\t" + (s.state + "\t"
      + (Dec(s.leaseSeconds) + "\t" + (Dec(s.expiresAt) + "\t" + (Dec(s.lastSubscribeAt) + "\t"
      + (Dec(s.failCount) + "\t" + (Dec(s.nextAttemptAt) + "\t" + s.lastError)))))))))
  {
    ErrorCut(s.lastError);
    Percent.OrdinaryIsKept(s.lastError);
    var f := SubFields(s);
    assert f == [s.channelId, s.token, s.topic, s.secret, s.state, Dec(s.leaseSeconds), Dec(s.expiresAt),
                 Dec(s.lastSubscribeAt), Dec(s.failCount), Dec(s.nextAttemptAt), s.lastError];
    hide *;
    assert SubRow(s) == Join(f, '\t') by { SubRowIs(s); }
    JoinEleven(f, '\t');
  }

  lemma SubRowIs(s: Sub)
    ensures SubRow(s) == Join(SubFields(s), '\t')
  {
  }

  lemma JoinEleven(f: seq<string>, c: char)
    requires |f| == 11
    ensures Join(f, c) ==
      f[0] + [c] + (f[1] + [c] + (f[2] + [c] + (f[3] + [c] + (f[4] + [c] + (f[5] + [c] + (f[6] + [c] + (f[7] + [c]
      + (f[8] + [c] + (f[9] + [c] + f[10])))))))))
  {
    JoinThree(f[8..], c);
    JoinTwo(f[6..], c);
    JoinTwo(f[4..], c);
    JoinTwo(f[2..], c);
    JoinTwo(f, c);
    hide Join;
    assert f[6..][2..] == f[8..] && f[4..][2..] == f[6..] && f[2..][2..] == f[4..];
  }

  /** Fewer than ten columns are no row; what follows the eleventh is ignored. */
  lemma OtherWidths(s: Sub, fields: seq<string>, extra: seq<string>)
    requires TabFree(s) && forall i :: 0 <= i < |fields| ==> '\t' !in fields[i]
    requires forall i :: 0 <= i < |extra| ==> '\t' !in extra[i]
    ensures 0 < |fields| < 10 ==> ParseSub(Join(fields, '\t')) == None
    ensures ParseSub(Join(SubFields(s) + extra, '\t')) == Some(s.(lastError := ClampError(s.lastError)))
  {
    if fields != [] {
      SplitJoin(fields, '\t');
    }
    SubFieldsTabFree(s);
    var f := SubFields(s) + extra;
    assert forall i :: 0 <= i < |f| ==> f[i] == if i < 11 then SubFields(s)[i] else extra[i - 11];
    SplitJoin(f, '\t');
    assert f[..10] == LegacyFields(s);
    ColumnsRoundTrip(s, f);
    Percent.RoundTrip(ClampError(s.lastError));
    hide ParseColumns, Join, Split;
  }

  /** A tab inside column `k` cuts that column short and leaves the ones before it alone. */
  lemma {:induction false} SplitAtDirtyField(fields: seq<string>, c: char, k: nat)
    requires k < |fields| && c in fields[k]
    requires forall i :: 0 <= i < k ==> c !in fields[i]
    ensures var p := Split(Join(fields, c), c); k < |p| && p[k] != fields[k]
  {
    if k == 0 {
      SplitFirstDirty(fields, c);
    } else {
      SplitAtDirtyField(fields[1..], c, k - 1);
      SplitCons(fields[0], c, Join(fields[1..], c));
    }
  }

  lemma SplitFirstDirty(fields: seq<string>, c: char)
    requires fields != [] && c in fields[0]
    ensures Split(Join(fields, c), c)[0] != fields[0]
  {
    var f := fields[0];
    var i := IndexOf(f, c);
    IndexOfFound(f, c);
    var rest := if |fields| == 1 then f[i + 1..] else f[i + 1..] + ([c] + Join(fields[1..], c));
    assert f == f[..i] + [c] + f[i + 1..];
    assert Join(fields, c) == f[..i] + [c] + rest;
    SplitCons(f[..i], c, rest);
    assert |f[..i]| < |f|;
  }

  lemma ParsedColumns(line: string)
    ensures var p := Split(line, '\t');
      ParseSub(line).Some? ==> |p| >= 10 && RawFields(ParseSub(line).value) == p[..5]
  {
  }

  /** A row reads back as the subscription it was written from exactly when no text column holds a tab. */
  lemma RowRoundTripIff(s: Sub)
    ensures ParseSub(SubRow(s)) == Some(s.(lastError := ClampError(s.lastError))) <==> TabFree(s)
  {
    if TabFree(s) {
      RowRoundTrip(s);
    } else {
      var raw := RawFields(s);
      var k := FirstDirty(raw);
      var f := SubFields(s);
      assert forall i :: 0 <= i < 5 ==> f[i] == raw[i];
      SplitAtDirtyField(f, '\t', k);
      ParsedColumns(SubRow(s));
      var p := Split(SubRow(s), '\t');
      if ParseSub(SubRow(s)).Some? {
        assert p[..5][k] == p[k];
        assert RawFields(s.(lastError := ClampError(s.lastError))) == raw;
      }
    }
  }

  lemma FirstDirty(raw: seq<string>) returns (k: nat)
    requires exists i :: 0 <= i < |raw| && '\t' in raw[i]
    ensures k < |raw| && '\t' in raw[k] && forall i :: 0 <= i < k ==> '\t' !in raw[i]
  {
    k := 0;
    while '\t' !in raw[k]
      invariant k < |raw|
      invariant forall i :: 0 <= i < k ==> '\t' !in raw[i]
      invariant exists i :: k <= i < |raw| && '\t' in raw[i]
      decreases |raw| - k
    {
      k := k + 1;
    }
  }

  // ---- the whole file -----------------------------------------------------

  /** Text that a raw column can hold. */
  predicate CleanIds(s: Sub) {
    forall i :: 0 <= i < 5 ==> '\t' !in RawFields(s)[i] && '\n' !in RawFields(s)[i]
  }

  function Rows(subs: map<string, Sub>, order: seq<string>): seq<string>
    requires forall i :: 0 <= i < |order| ==> order[i] in subs
  {
    seq(|order|, i requires 0 <= i < |order| => SubRow(subs[order[i]]))
  }

  /** The file `save` writes when it visits the map in this order. */
  function SavedFile(subs: map<string, Sub>, order: seq<string>): seq<Byte>
    requires forall i :: 0 <= i < |order| ==> order[i] in subs
  {
    Utf8.Encode(Unlines(Rows(subs, order)))
  }

  ghost predicate IsOrder(order: seq<string>, keys: set<string>) {
    Distinct(order) && (forall c :: c in order <==> c in keys)
  }

  function LoadLine(r: Reg, line: string): Reg {
    match ParseSub(line)
    case Some(s) => InsertReg(r, s)
    case None => r
  }

  function LoadLines(lines: seq<string>): Reg {
    if lines == [] then Reg(map[], map[], map[])
    else LoadLine(LoadLines(lines[..|lines| - 1]), lines[|lines| - 1])
  }

  /** `Registry::load`; an unreadable file loads as an empty registry. */
  function LoadReg(file: seq<Byte>): Reg {
    match Utf8.Decode(file)
    case Some(content) => LoadLines(Lines(content))
    case None => Reg(map[], map[], map[])
  }

  function Clamped(s: Sub): Sub { s.(lastError := ClampError(s.lastError)) }

  function ClampAll(subs: map<string, Sub>): map<string, Sub> { map c | c in subs :: Clamped(subs[c]) }

  lemma RowIsLine(s: Sub)
    requires CleanIds(s)
    ensures IsLine(SubRow(s))
  {
    var f, e := LegacyFields(s), Percent.PctEncode(ClampError(s.lastError));
    NumFieldsClean(s);
    ErrorFieldClean(s);
    forall i | 0 <= i < 10 ensures '\n' !in f[i] {
      if i < 5 {
        assert f[i] == RawFields(s)[i];
      } else {
        assert f[i] == NumFields(s)[i - 5];
      }
    }
    JoinAvoids(f, '\t', '\n');
    JoinLast(f, e, '\t');
    LastOfRow(Join(f, '\t'), e);
  }

  lemma LastOfRow(front: string, e: string)
    requires '\n' !in front && forall c :: c in e ==> c as int >= 0x20
    ensures IsLine(front + ['\t'] + e)
  {
    var row := front + ['\t'] + e;
    if e == "" {
      assert row[|row| - 1] == '\t';
    } else {
      assert row[|row| - 1] == e[|e| - 1];
      assert e[|e| - 1] in e;
    }
  }

  /** What has been loaded after the first `k` rows. */
  ghost predicate LoadedUpTo(r: Reg, q: Reg, order: seq<string>, k: nat) {
    && k <= |order|
    && q.unsub == map[]
    && (forall c :: c in q.subs <==> c in order[..k])
    && (forall c :: c in q.subs ==> c in r.subs && q.subs[c] == Clamped(r.subs[c]))
    && (forall t :: t in q.byToken <==> t in r.byToken && r.byToken[t] in order[..k])
    && (forall t :: t in q.byToken ==> q.byToken[t] == r.byToken[t])
  }

  lemma LoadNextRow(r: Reg, q: Reg, order: seq<string>, k: nat)
    requires Indexed(r) && LoadedUpTo(r, q, order, k) && k < |order| && order[k] in r.subs
    ensures LoadedUpTo(r, InsertReg(q, Clamped(r.subs[order[k]])), order, k + 1)
  {
    assert order[..k + 1] == order[..k] + [order[k]];
  }

  lemma NothingLoaded(r: Reg, order: seq<string>)
    ensures LoadedUpTo(r, LoadLines([]), order, 0)
  {
  }

  lemma CleanIsTabFree(s: Sub)
    requires CleanIds(s)
    ensures TabFree(s)
  {
  }

  lemma {:induction false} LoadRows(r: Reg, order: seq<string>, k: nat)
    requires Indexed(r) && k <= |order|
    requires forall i :: 0 <= i < |order| ==> order[i] in r.subs && CleanIds(r.subs[order[i]])
    ensures LoadedUpTo(r, LoadLines(Rows(r.subs, order)[..k]), order, k)
  {
    hide SubRow, ParseSub, CleanIds, LoadedUpTo;
    var rows := Rows(r.subs, order);
    if k == 0 {
      assert rows[..0] == [];
      NothingLoaded(r, order);
    } else {
      LoadRows(r, order, k - 1);
      assert rows[..k][..k - 1] == rows[..k - 1];
      assert rows[..k][k - 1] == SubRow(r.subs[order[k - 1]]);
      CleanIsTabFree(r.subs[order[k - 1]]);
      RowRoundTrip(r.subs[order[k - 1]]);
      LoadNextRow(r, LoadLines(rows[..k - 1]), order, k - 1);
    }
  }

  /**
   * A restart brings the registry back: the same subscriptions with their errors cut to the kept
   * length, the same token index, and no tombstones, whatever order the map was visited in.
   */
  lemma LoadAfterSave(r: Reg, order: seq<string>)
    requires Indexed(r) && IsOrder(order, r.subs.Keys)
    requires forall c :: c in r.subs ==> CleanIds(r.subs[c])
    ensures LoadReg(SavedFile(r.subs, order)) == Reg(ClampAll(r.subs), r.byToken, map[])
    ensures forall c :: c in r.subs ==> var e := r.subs[c].lastError;
      LoadReg(SavedFile(r.subs, order)).subs[c] == r.subs[c].(lastError := if |e| <= 200 then e else e[..200])
  {
    forall c | c in r.subs ensures var e := r.subs[c].lastError;
      ClampAll(r.subs)[c] == r.subs[c].(lastError := if |e| <= 200 then e else e[..200])
    {
      ErrorCut(r.subs[c].lastError);
    }
    hide SubRow, ParseSub, LoadLines, Rows, LoadedUpTo, ClampAll, SavedFile, LoadReg, Indexed, CleanIds;
    SavedFileLines(r.subs, order);
    LoadRows(r, order, |order|);
    AllRows(r.subs, order);
    AllLoaded(r, LoadLines(Rows(r.subs, order)), order);
  }

  lemma AllLoaded(r: Reg, q: Reg, order: seq<string>)
    requires Indexed(r) && IsOrder(order, r.subs.Keys) && LoadedUpTo(r, q, order, |order|)
    ensures q == Reg(ClampAll(r.subs), r.byToken, map[])
  {
    hide Clamped;
    assert order[..|order|] == order;
    assert q.subs == ClampAll(r.subs);
    assert q.byToken == r.byToken;
  }

  lemma AllRows(subs: map<string, Sub>, order: seq<string>)
    requires forall i :: 0 <= i < |order| ==> order[i] in subs
    ensures Rows(subs, order)[..|order|] == Rows(subs, order)
  {
  }

  lemma SavedFileLines(subs: map<string, Sub>, order: seq<string>)
    requires forall i :: 0 <= i < |order| ==> order[i] in subs && CleanIds(subs[order[i]])
    ensures LoadReg(SavedFile(subs, order)) == LoadLines(Rows(subs, order))
  {
    hide SubRow, LoadLines, Lines;
    var rows := Rows(subs, order);
    forall i | 0 <= i < |rows| ensures IsLine(rows[i]) {
      RowIsLine(subs[order[i]]);
    }
    Utf8.DecodeEncode(Unlines(rows));
    LinesUnlines(rows);
  }

  // ---- what a file cannot hold --------------------------------------------

  /** Whatever a line says, the record it yields has columns that fit a row. */
  lemma ParsedIsClean(line: string)
    requires '\n' !in line && ParseSub(line).Some?
    ensures CleanIds(ParseSub(line).value)
  {
    ParsedColumns(line);
    SplitPieces(line, '\t');
    var s, p := ParseSub(line).value, Split(line, '\t');
    hide ParseSub, Split;
    forall i | 0 <= i < 5 ensures '\t' !in RawFields(s)[i] && '\n' !in RawFields(s)[i] {
      assert RawFields(s)[i] == p[..5][i] == p[i];
      assert p[i] in p;
    }
  }

  lemma {:induction false} LoadedIsClean(lines: seq<string>)
    requires forall l :: l in lines ==> '\n' !in l
    ensures forall c :: c in LoadLines(lines).subs ==> CleanIds(LoadLines(lines).subs[c])
  {
    hide ParseSub, CleanIds;
    if lines != [] {
      var last := lines[|lines| - 1];
      LoadedIsClean(lines[..|lines| - 1]);
      assert last in lines;
      if ParseSub(last).Some? {
        ParsedIsClean(last);
      }
    }
  }

  lemma FileIsClean(file: seq<Byte>)
    ensures forall c :: c in LoadReg(file).subs ==> CleanIds(LoadReg(file).subs[c])
  {
    var content := Utf8.Decode(file);
    hide CleanIds, Lines, Utf8.Decode;
    if content.Some? {
      LinesHoldNoBreak(content.value);
      LoadedIsClean(Lines(content.value));
    }
    hide LoadLines;
  }

  lemma ClampKeepsIds(s: Sub)
    ensures CleanIds(Clamped(s)) <==> CleanIds(s)
  {
    assert RawFields(Clamped(s)) == RawFields(s);
  }

  /**
   * A restart brings the registry back exactly when no text column of any record holds a tab or a
   * newline, whatever order the map was visited in.
   */
  lemma LoadAfterSaveIff(r: Reg, order: seq<string>)
    requires Indexed(r) && IsOrder(order, r.subs.Keys)
    ensures LoadReg(SavedFile(r.subs, order)) == Reg(ClampAll(r.subs), r.byToken, map[])
      <==> forall c :: c in r.subs ==> CleanIds(r.subs[c])
  {
    var q := LoadReg(SavedFile(r.subs, order));
    FileIsClean(SavedFile(r.subs, order));
    hide LoadReg, SavedFile, CleanIds, Clamped, Indexed;
    if forall c :: c in r.subs ==> CleanIds(r.subs[c]) {
      LoadAfterSave(r, order);
    }
    if q == Reg(ClampAll(r.subs), r.byToken, map[]) {
      forall c | c in r.subs ensures CleanIds(r.subs[c]) {
        assert q.subs[c] == Clamped(r.subs[c]);
        ClampKeepsIds(r.subs[c]);
      }
    }
  }
}

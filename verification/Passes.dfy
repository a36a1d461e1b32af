/**
 * The two passes over the registry (`src/renew.rs`) as programs: what each computes from end to end
 * when nothing else runs beside it. Their interleavings are the subject of the protocol modules.
 */
module Passes {
  import opened Base
  import opened Lifecycle
  import opened SubsSpec
  import Protocol
  import R = Registry
  import Text

  /** What a pass gets from outside while it deals with one channel. */
  datatype Outside = Outside(token: string, secret: string, reply: Reply, sentAt: Clock, doneAt: Clock, draw: nat)

  // ---- renewing -----------------------------------------------------------

  function Renewed(s: Sub, w: Outside): Sub {
    Attempted(s.(lastSubscribeAt := w.sentAt), w.reply, w.doneAt, w.draw)
  }

  /** A record after a whole pass: demoted if lapsed, then attempted once if due. */
  function AfterPass(s: Sub, now: nat, w: Outside): Sub {
    var e := Expired(s, now);
    if Due(e, now) then Renewed(e, w) else e
  }

  /** The hub was asked for this record, and its answer was noted; what it is a subscription to stays. */
  predicate Asked(s: Sub, q: Sub, w: Outside) {
    && q.channelId == s.channelId && q.token == s.token && q.topic == s.topic && q.secret == s.secret
    && q.leaseSeconds == s.leaseSeconds && q.expiresAt == s.expiresAt && q.lastSubscribeAt == w.sentAt
    && if IsRefusal(w.reply)
       then q.failCount == (s.failCount + 1) % 0x1_0000_0000 && w.doneAt + 30 <= q.nextAttemptAt <= w.doneAt + 2250
       else q.failCount == 0 && q.lastError == "" && q.nextAttemptAt == w.doneAt + 300
  }

  /**
   * What an undisturbed pass makes of each record: one whose next attempt is not due, an active one with
   * more than a day of its lease left, and a pending one asked for at most 600 s ago are left alone, but
   * a lapsed lease is noted; in all other cases the hub is asked, and an active record stays active as
   * long as its lease runs.
   */
  lemma AfterPassMeaning(s: Sub, now: Clock, w: Outside)
    requires IsState(s.state) && (s.state == "active" ==> s.expiresAt > 0)
    ensures var q, asked := AfterPass(s, now, w), if IsRefusal(w.reply) then "failed" else "pending";
      && (s.nextAttemptAt > now ==>
            q == if s.state == "active" && s.expiresAt <= now then s.(state := "expired") else s)
      && (s.nextAttemptAt <= now && s.state == "active" && s.expiresAt > now + 86400 ==> q == s)
      && (s.nextAttemptAt <= now && s.state == "active" && now < s.expiresAt <= now + 86400 ==>
            Asked(s, q, w) && q.state == "active")
      && (s.nextAttemptAt <= now && s.state == "active" && s.expiresAt <= now ==> Asked(s, q, w) && q.state == asked)
      && (s.nextAttemptAt <= now && s.state == "pending" && now <= s.lastSubscribeAt + 600 ==> q == s)
      && (s.nextAttemptAt <= now && s.state == "pending" && s.lastSubscribeAt + 600 < now ==>
            Asked(s, q, w) && q.state == asked)
      && (s.nextAttemptAt <= now && (s.state == "failed" || s.state == "expired") ==>
            Asked(s, q, w) && q.state == asked)
  {
    var e := Expired(s, now);
    assert e == if s.state == "active" && s.expiresAt <= now then s.(state := "expired") else s;
    AskedBy(e, w);
    hide Renewed, Asked;
  }

  lemma AskedBy(s: Sub, w: Outside)
    ensures var q := Renewed(s, w);
      && Asked(s, q, w)
      && q.state == if s.state == "active" then "active" else if IsRefusal(w.reply) then "failed" else "pending"
  {
    var sent := s.(lastSubscribeAt := w.sentAt);
    AttemptMeaning(sent, w.reply, w.doneAt, w.draw);
    BackoffBounds((s.failCount + 1) % U32_BOUND, w.draw);
    BackoffLeast((s.failCount + 1) % U32_BOUND);
    hide Attempted, Backoff, BackoffBase;
  }

  lemma StoreOwn(r: Reg, s: Sub)
    requires Indexed(r) && Mergeable(r, s)
    requires Active(r.subs[s.channelId]) ==>
      && Active(s) && s.expiresAt == r.subs[s.channelId].expiresAt && s.leaseSeconds == r.subs[s.channelId].leaseSeconds
    ensures MergeReg(r, s) == r.(subs := r.subs[s.channelId := s])
    ensures Indexed(MergeReg(r, s))
  {
    Protocol.UpdateInPlace(r, s);
    UpdateKeepsIndex(r, s);
    hide UpdateReg;
  }

  lemma RenewedKeeps(s: Sub, w: Outside)
    ensures var a := Renewed(s, w);
      && a.channelId == s.channelId && a.token == s.token
      && (Active(s) ==> Active(a)) && a.expiresAt == s.expiresAt && a.leaseSeconds == s.leaseSeconds
  {
    hide Verdict, Backoff;
  }

  /** The body of `renew_due`'s loop up to the merge. */
  method Attempt(candidate: Sub, w: Outside) returns (s: Sub)
    ensures s == Renewed(candidate, w)
  {
    hide Backoff;
    s := candidate;
    var wasActive := s.state == "active";
    s := s.(lastSubscribeAt := w.sentAt);
    match Verdict(w.reply) {
      case None =>
        if !wasActive {
          s := s.(state := "pending");
        }
        s := s.(failCount := 0, lastError := "");
        s := s.(nextAttemptAt := w.doneAt + RENEW_COOLDOWN);
      case Some(why) =>
        s := s.(failCount := (s.failCount + 1) % U32_BOUND);
        if !wasActive {
          s := s.(state := "failed");
        }
        BackoffBounds(s.failCount, w.draw);
        s := s.(lastError := why, nextAttemptAt := w.doneAt + Backoff(s.failCount, w.draw));
    }
  }

  /** One pass of that loop, for a candidate whose record is still the one selected. */
  method RenewOne(reg: R.Registry, candidate: Sub, w: Outside, ok: bool)
    requires Indexed(reg.Value())
    requires candidate.channelId in reg.subs && reg.subs[candidate.channelId] == candidate
    modifies reg
    ensures reg.Value() == old(reg.Value()).(subs := old(reg.subs)[candidate.channelId := Renewed(candidate, w)])
    ensures Indexed(reg.Value())
  {
    hide Renewed, MergeReg, Active;
    var s := Attempt(candidate, w);
    RenewedKeeps(candidate, w);
    OwnIsMergeable(reg.Value(), candidate, s);
    hide Indexed;
    StoreOwn(reg.Value(), s);
    reg.MergeAttempt(s, ok);
  }

  /**
   * `renew_due`: every lapsed record is demoted, every due one is attempted exactly once, and nothing
   * else changes.
   */
  method RenewDue(reg: R.Registry, now: Clock, world: string -> Outside, ok: bool)
    requires Indexed(reg.Value())
    modifies reg
    ensures reg.Value() == old(reg.Value()).(
      subs := map c | c in old(reg.subs) :: AfterPass(old(reg.subs)[c], now, world(c)))
    ensures Indexed(reg.Value())
  {
    hide Due, Renewed, Pass, AfterPass, ExpireReg;
    ghost var before := reg.Value();
    ExpireKeepsIndex(before, now);
    reg.ExpireLapsed(now, ok);
    ghost var start := reg.Value();
    var due := reg.RenewCandidates(now);
    PassStart(start.subs, world);
    assert due[..0] == [];
    for i := 0 to |due|
      invariant reg.Value() == start.(subs := Pass(start.subs, due[..i], world))
      invariant Indexed(reg.Value())
    {
      CandidateIsCurrent(start, due, i, now, world);
      hide Indexed, Candidates, Elements, Distinct;
      RenewOne(reg, due[i], world(due[i].channelId), ok);
    }
    assert due[..|due|] == due;
    PassMeaning(before, due, now, world);
  }

  lemma ExpireKeepsIndex(r: Reg, now: nat)
    requires Indexed(r)
    ensures Indexed(ExpireReg(r, now))
  {
    var q := ExpireReg(r, now);
    forall c | c in q.subs
      ensures q.subs[c].channelId == c && q.subs[c].token in q.byToken && q.byToken[q.subs[c].token] == c
    {
      assert r.byToken[r.subs[c].token] == c;
    }
  }

  /** The records once the candidates in `done` have been attempted. */
  function Pass(subs: map<string, Sub>, done: seq<Sub>, world: string -> Outside): map<string, Sub> {
    map c | c in subs :: if subs[c] in done then Renewed(subs[c], world(c)) else subs[c]
  }

  lemma OwnIsMergeable(r: Reg, cur: Sub, s: Sub)
    requires cur.channelId in r.subs && r.subs[cur.channelId] == cur
    requires s.channelId == cur.channelId && s.token == cur.token
    ensures Mergeable(r, s)
  {
  }

  lemma CandidateIsCurrent(start: Reg, due: seq<Sub>, i: nat, now: nat, world: string -> Outside)
    requires Indexed(start) && i < |due| && Elements(due) == Candidates(start, now) && Distinct(due)
    ensures var c := due[i].channelId;
      && c in start.subs && start.subs[c] == due[i]
      && Pass(start.subs, due[..i], world)[c] == due[i]
      && Pass(start.subs, due[..i + 1], world)
           == Pass(start.subs, due[..i], world)[c := Renewed(due[i], world(c))]
  {
    hide Due, Renewed;
    assert due[i] in Elements(due);
    var c := due[i].channelId;
    assert due[..i + 1] == due[..i] + [due[i]];
    assert forall d :: d in start.subs && start.subs[d] == due[i] ==> d == c;
  }

  lemma PassStart(subs: map<string, Sub>, world: string -> Outside)
    ensures Pass(subs, [], world) == subs
  {
  }

  lemma PassMeaning(before: Reg, due: seq<Sub>, now: nat, world: string -> Outside)
    requires Elements(due) == Candidates(ExpireReg(before, now), now)
    ensures before.(subs := Pass(ExpireReg(before, now).subs, due, world)) ==
      before.(subs := map c | c in before.subs :: AfterPass(before.subs[c], now, world(c)))
    ensures ExpireReg(before, now) == before.(subs := ExpireReg(before, now).subs)
  {
    hide Due, Renewed, Expired;
    var start := ExpireReg(before, now);
    forall c | c in start.subs ensures start.subs[c] in due <==> Due(start.subs[c], now) {
      assert start.subs[c] in due <==> start.subs[c] in Elements(due);
      if start.subs[c] in Candidates(start, now) {
        var d :| d in start.subs && Due(start.subs[d], now) && start.subs[d] == start.subs[c];
      }
    }
  }

  // ---- reconciling --------------------------------------------------------

  /** The record of a channel that a reconcile registered. */
  function First(c: string, w: Outside): Sub {
    var s := NewSub(c, w.token, w.secret).(lastSubscribeAt := w.sentAt);
    match Verdict(w.reply)
    case None => s
    case Some(why) => Refused(s, why, w.doneAt, w.draw)
  }

  /** What a new channel is registered as, before the hub is asked and after it has answered. */
  lemma FirstMeaning(c: string, w: Outside)
    ensures var f := First(c, w);
      && f.channelId == c && f.token == w.token && f.secret == w.secret && f.topic == TopicFor(c)
      && f.leaseSeconds == 0 && f.expiresAt == 0 && f.lastSubscribeAt == w.sentAt
      && (!IsRefusal(w.reply) ==> f.state == "pending" && f.failCount == 0 && f.nextAttemptAt == 0 && f.lastError == "")
      && (IsRefusal(w.reply) ==>
            f.state == "failed" && f.failCount == 1 && w.doneAt + 60 <= f.nextAttemptAt <= w.doneAt + 75)
      && (w.reply.Status? && IsRefusal(w.reply) ==> f.lastError == "HTTP " + Text.Dec(w.reply.code))
      && (w.reply.Transport? ==>
            f.lastError == if |w.reply.error| <= 200 then w.reply.error else w.reply.error[..200])
  {
    VerdictMeaning(if w.reply.Status? then w.reply.code else 0, if w.reply.Transport? then w.reply.error else "");
    BackoffBounds(1, w.draw);
    BackoffTable(1);
    hide Verdict, Backoff, BackoffBase, TopicFor;
  }

  function Accepted(world: string -> Outside): string -> bool { c => Verdict(world(c).reply).None? }

  /** Freshly drawn tokens: none is in use, and no two are the same. */
  ghost predicate NewTokens(r: Reg, cs: seq<string>, world: string -> Outside) {
    && (forall c :: c in cs ==> world(c).token !in r.byToken && world(c).token !in r.unsub)
    && (forall c, d :: c in cs && d in cs && world(c).token == world(d).token ==> c == d)
  }

  /** The registered records once the channels in `cs` have been added. */
  function WithFirst(subs: map<string, Sub>, cs: seq<string>, world: string -> Outside): map<string, Sub> {
    map c | c in subs.Keys + Elements(cs) :: if c in cs then First(c, world(c)) else subs[c]
  }

  lemma InsertFirst(r: Reg, s: Sub)
    requires Indexed(r) && Separate(r)
    requires s.channelId !in r.subs && s.token !in r.byToken && s.token !in r.unsub
    ensures var q := InsertReg(r, s);
      && Indexed(q) && Separate(q)
      && s.channelId in q.subs && q.subs[s.channelId] == s
  {
    InsertKeepsIndexIff(r, s);
  }

  lemma InsertThenStore(r: Reg, s: Sub, f: Sub)
    requires f.channelId == s.channelId && f.token == s.token
    ensures var q := InsertReg(r, s); q.(subs := q.subs[s.channelId := f]) == InsertReg(r, f)
  {
  }

  /** A refusal is stored over the record that was just inserted. */
  lemma StoreRefusal(r: Reg, s: Sub, f: Sub)
    requires Indexed(r) && Separate(r) && s.channelId in r.subs && r.subs[s.channelId] == s && !Active(s)
    requires f.channelId == s.channelId && f.token == s.token
    ensures MergeReg(r, f) == r.(subs := r.subs[s.channelId := f])
    ensures Indexed(MergeReg(r, f)) && Separate(MergeReg(r, f))
  {
    OwnIsMergeable(r, s, f);
    StoreOwn(r, f);
    hide MergeReg, Indexed;
  }

  /** The body of the subscribe loop; `asked` is the registry at the moment the hub is contacted. */
  method AddOne(reg: R.Registry, c: string, w: Outside, ok: bool) returns (accepted: bool, ghost asked: Reg)
    requires Indexed(reg.Value()) && Separate(reg.Value())
    requires c !in reg.subs && w.token !in reg.byToken && w.token !in reg.unsubPending
    modifies reg
    ensures accepted <==> Verdict(w.reply).None?
    ensures ByToken(asked, w.token) == Some(NewSub(c, w.token, w.secret).(lastSubscribeAt := w.sentAt))
    ensures Indexed(asked) && asked == InsertReg(old(reg.Value()), ByToken(asked, w.token).value)
    ensures reg.Value() == InsertReg(old(reg.Value()), First(c, w))
    ensures Indexed(reg.Value()) && Separate(reg.Value())
  {
    hide Verdict, Backoff, TopicFor, MergeReg, Indexed, Separate, InsertReg;
    ghost var r := reg.Value();
    var s := NewSub(c, w.token, w.secret);
    s := s.(lastSubscribeAt := w.sentAt);
    InsertFirst(reg.Value(), s);
    reg.Insert(s);
    asked := reg.Value();
    hide ByToken;
    accepted := Verdict(w.reply).None?;
    match Verdict(w.reply) {
      case None =>
      case Some(why) =>
        BackoffBounds(1, w.draw);
        var f := s.(state := "failed");
        f := f.(failCount := 1);
        f := f.(nextAttemptAt := w.doneAt + Backoff(1, w.draw));
        f := f.(lastError := why);
        StoreRefusal(InsertReg(r, s), s, f);
        InsertThenStore(r, s, f);
        assert f == First(c, w);
        reg.MergeAttempt(f, ok);
    }
  }

  lemma PlanNext(adds: seq<string>, i: nat, world: string -> Outside)
    requires i < |adds|
    ensures Filter(Accepted(world), adds[..i + 1]) ==
      Filter(Accepted(world), adds[..i]) + if Accepted(world)(adds[i]) then [adds[i]] else []
  {
    assert adds[..i + 1] == adds[..i] + [adds[i]];
    FilterAppend(Accepted(world), adds[..i], [adds[i]]);
    FilterCons(Accepted(world), adds[i], []);
    assert [adds[i]] + [] == [adds[i]];
  }

  function Tokens(cs: seq<string>, world: string -> Outside): set<string> { set c | c in cs :: world(c).token }

  /** What holds of the registry once the channels in `done` have been added to `before`. */
  ghost predicate Adding(before: Reg, r: Reg, done: seq<string>, world: string -> Outside) {
    && Indexed(r) && Separate(r)
    && r.subs == WithFirst(before.subs, done, world)
    && r.byToken.Keys == before.byToken.Keys + Tokens(done, world)
    && r.unsub == before.unsub
  }

  lemma AddingStart(before: Reg, world: string -> Outside)
    requires Indexed(before) && Separate(before)
    ensures Adding(before, before, [], world)
  {
  }

  /** The next channel to add is absent and its token is unused. */
  lemma AddingReady(before: Reg, r: Reg, adds: seq<string>, i: nat, world: string -> Outside)
    requires i < |adds| && Adding(before, r, adds[..i], world)
    requires Distinct(adds) && NewTokens(before, adds, world) && forall c :: c in adds ==> c !in before.subs
    ensures adds[i] !in r.subs && world(adds[i]).token !in r.byToken && world(adds[i]).token !in r.unsub
  {
    hide First, Indexed, Separate;
    assert adds[i] !in adds[..i];
  }

  lemma AddingNext(before: Reg, r: Reg, q: Reg, adds: seq<string>, i: nat, world: string -> Outside)
    requires i < |adds| && Adding(before, r, adds[..i], world)
    requires Indexed(q) && Separate(q) && q == InsertReg(r, First(adds[i], world(adds[i])))
    ensures Adding(before, q, adds[..i + 1], world)
  {
    FirstIds(adds[i], world(adds[i]));
    WithFirstNext(before.subs, adds, i, world);
    TokensNext(adds, i, world);
    hide First, Indexed, Separate, WithFirst, Tokens;
  }

  lemma WithFirstNext(subs: map<string, Sub>, adds: seq<string>, i: nat, world: string -> Outside)
    requires i < |adds|
    ensures WithFirst(subs, adds[..i + 1], world) ==
      WithFirst(subs, adds[..i], world)[adds[i] := First(adds[i], world(adds[i]))]
  {
    hide First;
    assert adds[..i + 1] == adds[..i] + [adds[i]];
    assert forall d :: d in adds[..i + 1] <==> d in adds[..i] || d == adds[i];
  }

  lemma TokensNext(adds: seq<string>, i: nat, world: string -> Outside)
    requires i < |adds|
    ensures Tokens(adds[..i + 1], world) == Tokens(adds[..i], world) + {world(adds[i]).token}
  {
    assert adds[..i + 1] == adds[..i] + [adds[i]];
    assert forall d :: d in adds[..i + 1] <==> d in adds[..i] || d == adds[i];
  }

  lemma FirstIds(c: string, w: Outside)
    ensures First(c, w).channelId == c && First(c, w).token == w.token
  {
  }

  /** The subscribe loop of `reconcile_locked`. */
  method AddAll(reg: R.Registry, adds: seq<string>, world: string -> Outside, ok: bool) returns (subscribed: nat)
    requires Indexed(reg.Value()) && Separate(reg.Value())
    requires Distinct(adds) && NewTokens(reg.Value(), adds, world) && forall c :: c in adds ==> c !in reg.subs
    modifies reg
    ensures subscribed == |Filter(Accepted(world), adds)|
    ensures Adding(old(reg.Value()), reg.Value(), adds, world)
  {
    hide Verdict, First, Indexed, Separate, Adding, NewTokens, Distinct;
    ghost var before := reg.Value();
    subscribed := 0;
    AddingStart(before, world);
    assert adds[..0] == [];
    for i := 0 to |adds|
      invariant subscribed == |Filter(Accepted(world), adds[..i])|
      invariant Adding(before, reg.Value(), adds[..i], world)
    {
      ghost var r := reg.Value();
      AddingReady(before, r, adds, i, world);
      AddingIsSound(before, r, adds[..i], world);
      PlanNext(adds, i, world);
      var accepted, _ := AddOne(reg, adds[i], world(adds[i]), ok);
      AddingNext(before, r, reg.Value(), adds, i, world);
      if accepted {
        subscribed := subscribed + 1;
      }
    }
    assert adds[..|adds|] == adds;
  }

  lemma AddingIsSound(before: Reg, r: Reg, done: seq<string>, world: string -> Outside)
    requires Adding(before, r, done, world)
    ensures Indexed(r) && Separate(r) && r.subs == WithFirst(before.subs, done, world)
  {
  }

  /** The unsubscribe loop of `reconcile_locked`, in the order the map happened to give. */
  method RemoveAll(reg: R.Registry, gone: set<string>, world: string -> Outside) returns (unsubscribed: nat)
    requires Indexed(reg.Value()) && Separate(reg.Value()) && gone <= reg.subs.Keys
    modifies reg
    ensures unsubscribed == |gone|
    ensures Indexed(reg.Value()) && Separate(reg.Value()) && reg.subs == old(reg.subs) - gone
  {
    hide Indexed, Separate;
    unsubscribed := 0;
    var left := gone;
    while left != {}
      invariant left <= gone
      invariant unsubscribed == |gone| - |left|
      invariant Indexed(reg.Value()) && Separate(reg.Value())
      invariant reg.subs == old(reg.subs) - (gone - left)
      decreases left
    {
      var c :| c in left;
      RemoveKeepsIndex(reg.Value(), c, world(c).doneAt);
      var _ := reg.Remove(c, world(c).doneAt);
      left := left - {c};
      unsubscribed := unsubscribed + 1;
    }
  }

  /**
   * `reconcile_locked` with its plan made from the registry as it stands: surviving records are not
   * touched, each new channel gets the record of its first subscribe, and the three numbers returned
   * are the accepted subscribes, the removals, and the subscriptions that are delivering at the end.
   */
  method ReconcileLocked(reg: R.Registry, desired: seq<string>, complete: bool, world: string -> Outside,
                         finishedAt: Clock, ok: bool)
    returns (subscribed: nat, unsubscribed: nat, active: nat)
    requires Indexed(reg.Value()) && Separate(reg.Value())
    requires Distinct(desired) && NewTokens(reg.Value(), desired, world)
    modifies reg
    ensures Indexed(reg.Value()) && Separate(reg.Value())
    ensures
      var before := old(reg.subs);
      reg.subs == map c | c in (if complete then Elements(desired) else before.Keys + Elements(desired)) ::
        if c in before then before[c] else First(c, world(c))
    ensures subscribed == |Filter(Accepted(world), PlanAdds(old(reg.Value()), desired))|
    ensures unsubscribed == |PlanRemoves(old(reg.Value()), desired, complete)|
    ensures active == LiveCount(reg.Value(), finishedAt)
    ensures ok ==> reg.Persisted()
  {
    hide *;
    ghost var before := reg.Value();
    var r := Reg(reg.subs, reg.byToken, reg.unsubPending);
    assert r == before by { ValueIs(reg); }
    var adds, gone := PlanAdds(r, desired), PlanRemoves(r, desired, complete);
    PlanIsReady(r, desired, world);
    subscribed := AddAll(reg, adds, world, ok);
    AddingIsSound(before, reg.Value(), adds, world);
    ValueIs(reg);
    PlanKeys(before, desired, complete, world);
    unsubscribed := RemoveAll(reg, gone, world);
    ValueIs(reg);
    ghost var _ := reg.Save(ok);
    ValueIs(reg);
    var e, f, p, t;
    active, e, f, p, t := reg.Health(finishedAt);
  }

  lemma ValueIs(reg: R.Registry)
    ensures reg.Value() == Reg(reg.subs, reg.byToken, reg.unsubPending)
  {
  }

  lemma PlanIsReady(r: Reg, desired: seq<string>, world: string -> Outside)
    requires Distinct(desired) && NewTokens(r, desired, world)
    ensures var adds := PlanAdds(r, desired);
      Distinct(adds) && NewTokens(r, adds, world) && forall c :: c in adds ==> c !in r.subs
  {
    FilterDistinct(c => c !in r.subs, desired);
  }

  lemma PlanKeys(r: Reg, desired: seq<string>, complete: bool, world: string -> Outside)
    ensures var adds, gone := PlanAdds(r, desired), PlanRemoves(r, desired, complete);
      && gone <= WithFirst(r.subs, adds, world).Keys
      && WithFirst(r.subs, adds, world) - gone ==
           map c | c in (if complete then Elements(desired) else r.subs.Keys + Elements(desired)) ::
             if c in r.subs then r.subs[c] else First(c, world(c))
  {
    hide First;
    var adds := PlanAdds(r, desired);
    assert forall c :: c in adds <==> c in desired && c !in r.subs;
  }
}

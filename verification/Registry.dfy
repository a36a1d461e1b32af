/** The registry object of `src/subs.rs`, and the operations the program runs on it under its lock. */
module Registry {
  import opened Base
  import opened Lifecycle
  import opened SubsSpec
  import Text
  import Utf8

  class Registry {
    var subs: map<string, Sub>
    var byToken: map<string, string>
    var unsubPending: map<string, Tomb>
    var file: seq<Byte>

    ghost function Value(): Reg
      reads this
    {
      Reg(subs, byToken, unsubPending)
    }

    /** The file holds one row for each current subscription, in some order. */
    ghost predicate Persisted()
      reads this
    {
      exists order :: IsOrder(order, subs.Keys) && file == SavedFile(subs, order)
    }

    /** `Registry::load`. */
    constructor Load(file: seq<Byte>)
      ensures Value() == LoadReg(file) && this.file == file
      ensures Utf8.Decode(file) == None ==> subs == map[] && byToken == map[]
      ensures unsubPending == map[]
    {
      var content := Utf8.Decode(file);
      var lines := if content.Some? then Text.Lines(content.value) else [];
      var s, t := ReadRows(lines);
      this.subs := s;
      this.byToken := t;
      this.unsubPending := map[];
      this.file := file;
    }

    /** The loop of `load`. */
    static method ReadRows(lines: seq<string>) returns (subs: map<string, Sub>, byToken: map<string, string>)
      ensures Reg(subs, byToken, map[]) == LoadLines(lines)
    {
      hide ParseSub;
      subs, byToken := map[], map[];
      for i := 0 to |lines|
        invariant Reg(subs, byToken, map[]) == LoadLines(lines[..i])
      {
        assert lines[..i + 1][..i] == lines[..i];
        match ParseSub(lines[i]) {
          case None =>
          case Some(s) =>
            byToken := byToken[s.token := s.channelId];
            subs := subs[s.channelId := s];
        }
      }
      assert lines[..|lines|] == lines;
    }

    /**
     * `Registry::save`, one row per subscription in the order the map happens to give them, written
     * atomically; a failed write leaves the old file.
     */
    method Save(ok: bool) returns (ghost order: seq<string>)
      modifies this`file
      ensures IsOrder(order, subs.Keys)
      ensures file == if ok then SavedFile(subs, order) else old(file)
      ensures ok ==> Persisted()
    {
      hide SubRow;
      var out := "";
      order := [];
      var left := subs.Keys;
      while left != {}
        invariant forall c :: c in left ==> c in subs
        invariant forall c :: c in order <==> c in subs && c !in left
        invariant Distinct(order)
        invariant forall i :: 0 <= i < |order| ==> order[i] in subs
        invariant out == Text.Unlines(Rows(subs, order))
        invariant file == old(file)
        decreases left
      {
        var c :| c in left;
        left := left - {c};
        RowsAppend(subs, order, c);
        out := out + (SubRow(subs[c]) + "\n");
        order := order + [c];
      }
      ghost var rows := SavedFile(subs, order);
      if ok {
        file := Utf8.Encode(out);
        assert file == rows;
      }
    }

    /** `Registry::insert`. */
    method Insert(s: Sub)
      modifies this`subs, this`byToken
      ensures Value() == InsertReg(old(Value()), s)
      ensures ByToken(Value(), s.token) == Some(s)
      ensures old(Indexed(Value())) && s.channelId !in old(subs) && s.token !in old(byToken) ==> Indexed(Value())
    {
      ghost var r := Value();
      if Indexed(r) {
        InsertKeepsIndexIff(r, s);
      }
      hide Indexed;
      byToken := byToken[s.token := s.channelId];
      subs := subs[s.channelId := s];
    }

    /** `Registry::update`. */
    method Update(s: Sub)
      modifies this`subs, this`byToken
      ensures Value() == UpdateReg(old(Value()), s)
      ensures ByToken(Value(), s.token) == Some(s)
      ensures old(Indexed(Value())) && OwnToken(old(Value()), s) ==> Indexed(Value())
    {
      ghost var r := Value();
      if Indexed(r) && OwnToken(r, s) {
        UpdateKeepsIndex(r, s);
      }
      hide Indexed, OwnToken;
      if s.channelId in subs {
        var previous := subs[s.channelId];
        if previous.token != s.token {
          byToken := byToken - {previous.token};
        }
      }
      byToken := byToken[s.token := s.channelId];
      subs := subs[s.channelId := s];
    }

    /** `Registry::remove`. */
    method Remove(channelId: string, now: nat) returns (gone: Option<Sub>)
      modifies this`subs, this`byToken, this`unsubPending
      ensures Value() == RemoveReg(old(Value()), channelId, now)
      ensures gone == if channelId in old(subs) then Some(old(subs)[channelId]) else None
      ensures old(Indexed(Value()) && Separate(Value())) ==> Indexed(Value()) && Separate(Value())
      ensures gone.Some? ==> forall at :: now <= at ==>
        UnsubTopic(Value(), gone.value.token, at) == if at < now + 900 then Some(gone.value.topic) else None
      ensures gone.Some? ==> forall t :: t in unsubPending ==> now < unsubPending[t].deadline
    {
      ghost var r := Value();
      if Indexed(r) && Separate(r) {
        RemoveKeepsIndex(r, channelId, now);
      }
      hide Indexed, Separate;
      if channelId !in subs {
        return None;
      }
      var s := subs[channelId];
      subs := subs - {channelId};
      byToken := byToken - {s.token};
      unsubPending := unsubPending[s.token := Tomb(s.topic, now + UNSUB_GRACE)];
      SweepUnsub(now);
      return Some(s);
    }

    /** `Registry::forget_unsub`. */
    method ForgetUnsub(token: string, now: nat)
      modifies this`unsubPending
      ensures Value() == ForgetReg(old(Value()), token, now)
      ensures forall t, at :: now <= at ==>
        UnsubTopic(Value(), t, at) == if t == token then None else UnsubTopic(old(Value()), t, at)
      ensures forall t :: t in unsubPending ==> now < unsubPending[t].deadline
    {
      unsubPending := unsubPending - {token};
      SweepUnsub(now);
    }

    /** `Registry::sweep_unsub`. */
    method SweepUnsub(now: nat)
      modifies this`unsubPending
      ensures unsubPending == Sweep(old(unsubPending), now)
      ensures forall t :: t in unsubPending ==> now < unsubPending[t].deadline
      ensures forall t, at :: now <= at ==> UnsubTopic(Value(), t, at) == UnsubTopic(old(Value()), t, at)
    {
      unsubPending := map t | t in unsubPending && now < unsubPending[t].deadline :: unsubPending[t];
    }

    /**
     * The locked part of `handle_verify`: the record becomes active for the shorter of the requested and
     * the configured lease, its failures are forgotten, and nothing else in it or beside it changes.
     */
    method Activate(channelId: string, requested: U64, cfgLease: U64, now: Clock, ok: bool)
      modifies this
      ensures Value() == ActivateReg(old(Value()), channelId, requested, cfgLease, now)
      ensures if channelId in old(subs) && ok then Persisted() else file == old(file)
      ensures unsubPending == old(unsubPending)
      ensures channelId in old(subs) && old(subs)[channelId].channelId == channelId ==>
        && channelId in subs && subs == old(subs)[channelId := subs[channelId]]
        && GivenLease(old(subs)[channelId], subs[channelId], requested, cfgLease, now)
      ensures channelId !in old(subs) ==> Value() == old(Value())
    {
      if channelId in subs {
        var s := subs[channelId];
        var lease := Min(requested, Max(cfgLease, 1));
        s := s.(state := "active");
        s := s.(leaseSeconds := lease);
        s := s.(expiresAt := SatAdd(now, lease));
        s := s.(failCount := 0);
        s := s.(nextAttemptAt := 0);
        Update(s);
        ghost var _ := Save(ok);
      }
    }

    /**
     * `handle_verify`, for the subscription found by the path token: the challenge is echoed to a
     * genuine request of either mode, and only a genuine subscribe activates.
     */
    method HandleVerify(sub: Sub, q: Request, cfgLease: U64, now: Clock, ok: bool) returns (echo: Option<string>)
      modifies this
      ensures echo ==
        if q.topic == sub.topic && q.challenge != "" && (q.verifyToken == "" || q.verifyToken == sub.token)
           && (q.mode == "subscribe" || q.mode == "unsubscribe")
        then Some(q.challenge) else None
      ensures echo.None? || q.mode == "unsubscribe" ==> unchanged(this)
      ensures echo.Some? && q.mode == "subscribe" ==>
        var c, lease := sub.channelId, if q.lease.Some? then q.lease.value else cfgLease;
        c in old(subs) && old(subs)[c].channelId == c ==>
          && c in subs && subs == old(subs)[c := subs[c]]
          && GivenLease(old(subs)[c], subs[c], lease, cfgLease, now)
      ensures Value() ==
        if Genuine(sub, q) && q.mode == "subscribe"
        then ActivateReg(old(Value()), sub.channelId, RequestedLease(q, cfgLease), cfgLease, now)
        else old(Value())
      ensures if Genuine(sub, q) && q.mode == "subscribe" && sub.channelId in old(subs) && ok
        then Persisted() else file == old(file)
    {
      hide ActivateReg;
      if q.topic != sub.topic || q.challenge == "" || (q.verifyToken != "" && q.verifyToken != sub.token) {
        return None;
      }
      if q.mode == "subscribe" {
        var requested := match q.lease case Some(n) => n case None => cfgLease;
        Activate(sub.channelId, requested, cfgLease, now, ok);
        return Some(q.challenge);
      }
      return if q.mode == "unsubscribe" then Some(q.challenge) else None;
    }

    /** `finish_unsubscribe`, for a path token that is not live. */
    method FinishUnsubscribe(token: string, q: Request, now: nat) returns (echo: Option<string>)
      modifies this`unsubPending
      ensures echo ==
        if UnsubTopic(old(Value()), token, now) == Some(q.topic) && q.mode == "unsubscribe" && q.challenge != ""
        then Some(q.challenge) else None
      ensures echo.None? ==> unchanged(this)
      ensures echo.Some? ==> forall t, at :: now <= at ==>
        UnsubTopic(Value(), t, at) == if t == token then None else UnsubTopic(old(Value()), t, at)
      ensures echo == if ConfirmsUnsubscribe(old(Value()), token, q, now) then Some(q.challenge) else None
      ensures Value() ==
        if ConfirmsUnsubscribe(old(Value()), token, q, now) then ForgetReg(old(Value()), token, now) else old(Value())
    {
      var expected := if token in unsubPending && now < unsubPending[token].deadline
                      then Some(unsubPending[token].topic) else None;
      if expected.Some? && q.mode == "unsubscribe" && expected.value == q.topic && q.challenge != "" {
        ForgetUnsub(token, now);
        return Some(q.challenge);
      }
      return None;
    }

    /** `merge_attempt`. */
    method MergeAttempt(attempt: Sub, ok: bool)
      modifies this
      ensures Value() == MergeReg(old(Value()), attempt)
      ensures if Mergeable(old(Value()), attempt) && ok then Persisted() else file == old(file)
      ensures
        var c, s := attempt.channelId, attempt;
        if c in old(subs) && old(subs)[c].token == s.token then
          var cur := old(subs)[c];
          subs == old(subs)[c :=
            if cur.state == "active"
            then s.(state := "active", expiresAt := cur.expiresAt, leaseSeconds := cur.leaseSeconds)
            else s]
        else Value() == old(Value()) && file == old(file)
    {
      var s := attempt;
      if s.channelId in subs {
        var cur := subs[s.channelId];
        if cur.token != s.token {
          return;
        }
        if cur.state == "active" {
          s := s.(state := "active");
          s := s.(expiresAt := cur.expiresAt);
          s := s.(leaseSeconds := cur.leaseSeconds);
        }
        Update(s);
        ghost var _ := Save(ok);
      }
    }

    /** `expire_lapsed`: collect the lapsed channels, then demote each; save if there were any. */
    method ExpireLapsed(now: nat, ok: bool)
      modifies this
      ensures Value() == ExpireReg(old(Value()), now)
      ensures if Lapsed(old(Value()), now) != {} && ok then Persisted() else file == old(file)
      ensures subs == map c | c in old(subs) :: var s := old(subs)[c];
        if s.state == "active" && 0 < s.expiresAt <= now then s.(state := "expired") else s
      ensures byToken == old(byToken) && unsubPending == old(unsubPending)
    {
      hide LeaseExpired, Active;
      var lapsed := set c | c in subs && subs[c].state == "active" && LeaseExpired(subs[c], now);
      assert lapsed == Lapsed(Value(), now) by { ActiveMeaning(); }
      ExpireMeaning(Value(), now);
      ExpiredIs(Value(), now);
      if lapsed == {} {
        return;
      }
      Demote(lapsed);
      ghost var _ := Save(ok);
    }

    /** The loop of `expire_lapsed`. */
    method Demote(lapsed: set<string>)
      requires lapsed <= subs.Keys
      modifies this`subs
      ensures subs == map c | c in old(subs) :: Demoted(old(subs)[c], c in lapsed)
    {
      var left := lapsed;
      while left != {}
        invariant left <= lapsed
        invariant subs.Keys == old(subs).Keys
        invariant forall c :: c in subs ==> subs[c] == Demoted(old(subs)[c], c in lapsed && c !in left)
        decreases left
      {
        var c :| c in left;
        left := left - {c};
        subs := subs[c := subs[c].(state := "expired")];
      }
    }

    /** The selection of `renew_due`, in the order the map happens to give. */
    method RenewCandidates(now: nat) returns (due: seq<Sub>)
      ensures Elements(due) == Candidates(Value(), now)
      ensures forall s :: s in due ==> s.nextAttemptAt <= now && exists c :: c in subs && subs[c] == s
      ensures forall c :: c in subs && subs[c].nextAttemptAt <= now ==>
        && (subs[c].state == "active" ==> (subs[c] in due <==> 0 < subs[c].expiresAt <= now + 86400))
        && (subs[c].state == "pending" ==> (subs[c] in due <==> subs[c].lastSubscribeAt + 600 < now))
        && (subs[c].state == "failed" || subs[c].state == "expired" ==> subs[c] in due)
      ensures (forall c :: c in subs ==> subs[c].channelId == c) ==> Distinct(due)
    {
      due := [];
      var left := subs.Keys;
      while left != {}
        invariant left <= subs.Keys
        invariant forall s :: s in due <==> exists c :: c in subs && c !in left && Due(subs[c], now) && subs[c] == s
        invariant (forall c :: c in subs ==> subs[c].channelId == c) ==>
          Distinct(due) && forall s :: s in due ==> s.channelId !in left
        decreases left
      {
        var c :| c in left;
        left := left - {c};
        if Due(subs[c], now) {
          due := due + [subs[c]];
        }
      }
    }

    /** The counters of `GET /api/health`. */
    method Health(now: nat) returns (active: nat, expired: nat, failed: nat, pending: nat, total: nat)
      ensures total == |subs| == active + expired + failed + pending
      ensures active == |set c | c in subs && Live(subs[c], now)| == LiveCount(Value(), now)
      ensures active == |set c | c in subs && subs[c].state == "active" && !(0 < subs[c].expiresAt <= now)|
      ensures expired == |set c | c in subs && Dead(subs[c], now)|
      ensures pending == |set c | c in subs && IsPending(subs[c])|
    {
      hide Counters, LeaseExpired;
      active, expired, failed, pending, total := 0, 0, 0, 0, 0;
      CountNone(subs, now);
      var left := subs.Keys;
      ghost var done: set<string> := {};
      while left != {}
        invariant left !! done && left + done == subs.Keys
        invariant total == |done| == active + expired + failed + pending
        invariant Counters(subs, done, now, active, expired, pending)
        decreases left
      {
        var c :| c in left;
        var s := subs[c];
        CountOne(subs, done, c, now, active, expired, pending);
        total := total + 1;
        if s.state == "active" && !LeaseExpired(s, now) {
          active := active + 1;
        } else if s.state == "active" || s.state == "expired" {
          expired := expired + 1;
        } else if s.state == "pending" {
          pending := pending + 1;
        } else {
          failed := failed + 1;
        }
        left := left - {c};
        done := done + {c};
      }
      assert done == subs.Keys;
      CountAll(subs, now, active, expired, pending);
      LiveSet(subs, now);
    }
  }

  /** `q` is `s` made active at `now`, for no longer than either lease. */
  predicate GivenLease(s: Sub, q: Sub, requested: nat, cfgLease: nat, now: nat) {
    && q.state == "active" && q.failCount == 0 && q.nextAttemptAt == 0
    && q.leaseSeconds <= requested && (q.leaseSeconds <= cfgLease || q.leaseSeconds == 1)
    && (q.leaseSeconds == requested || q.leaseSeconds == cfgLease || q.leaseSeconds == 1)
    && (requested <= cfgLease ==> q.leaseSeconds == requested)
    && (1 <= cfgLease <= requested ==> q.leaseSeconds == cfgLease)
    && (now + q.leaseSeconds < 0x1_0000_0000_0000_0000 ==> q.expiresAt == now + q.leaseSeconds)
    && (now + q.leaseSeconds >= 0x1_0000_0000_0000_0000 ==> q.expiresAt == 0xFFFF_FFFF_FFFF_FFFF)
    && q.channelId == s.channelId && q.token == s.token && q.topic == s.topic && q.secret == s.secret
    && q.lastSubscribeAt == s.lastSubscribeAt && q.lastError == s.lastError
  }

  /** Counted as expired: demoted, or lapsed and not yet demoted. */
  predicate Dead(s: Sub, now: nat) {
    s.state == "expired" || (s.state == "active" && LeaseExpired(s, now))
  }

  predicate IsPending(s: Sub) { s.state == "pending" }

  ghost function LiveIn(subs: map<string, Sub>, done: set<string>, now: nat): set<string> {
    set c | c in done && c in subs && Live(subs[c], now)
  }

  ghost function DeadIn(subs: map<string, Sub>, done: set<string>, now: nat): set<string> {
    set c | c in done && c in subs && Dead(subs[c], now)
  }

  ghost function PendingIn(subs: map<string, Sub>, done: set<string>): set<string> {
    set c | c in done && c in subs && IsPending(subs[c])
  }

  function Demoted(s: Sub, lapsed: bool): Sub { if lapsed then s.(state := "expired") else s }

  function Lapsed(r: Reg, now: nat): set<string> {
    set c | c in r.subs && Active(r.subs[c]) && LeaseExpired(r.subs[c], now)
  }

  lemma ActiveMeaning()
    ensures forall s: Sub :: Active(s) <==> s.state == "active"
  {
  }

  lemma ExpireMeaning(r: Reg, now: nat)
    ensures ExpireReg(r, now).subs == map c | c in r.subs :: Demoted(r.subs[c], c in Lapsed(r, now))
    ensures Lapsed(r, now) == {} ==> ExpireReg(r, now) == r
  {
    hide LeaseExpired, Active;
    assert forall c :: c in r.subs ==> (c in Lapsed(r, now) <==> Active(r.subs[c]) && LeaseExpired(r.subs[c], now));
  }

  lemma ExpiredIs(r: Reg, now: nat)
    ensures ExpireReg(r, now).subs == map c | c in r.subs :: var s := r.subs[c];
      if s.state == "active" && 0 < s.expiresAt <= now then s.(state := "expired") else s
  {
  }

  lemma AddOne(a: set<string>, b: set<string>, c: string, p: bool)
    requires c !in a && forall x :: x in b <==> x in a || (p && x == c)
    ensures |b| == |a| + if p then 1 else 0
  {
    assert b == a + if p then {c} else {};
  }

  lemma Exclusive(s: Sub, now: nat)
    ensures Live(s, now) ==> !Dead(s, now) && !IsPending(s)
    ensures Dead(s, now) ==> !IsPending(s)
  {
  }

  ghost predicate Counters(subs: map<string, Sub>, done: set<string>, now: nat,
                           active: nat, expired: nat, pending: nat)
  {
    && active == |LiveIn(subs, done, now)|
    && expired == |DeadIn(subs, done, now)|
    && pending == |PendingIn(subs, done)|
  }

  /** One more channel adds to at most one of the three counters. */
  lemma CountOne(subs: map<string, Sub>, done: set<string>, c: string, now: nat, a: nat, e: nat, p: nat)
    requires c in subs && c !in done && Counters(subs, done, now, a, e, p)
    ensures Live(subs[c], now) ==> Counters(subs, done + {c}, now, a + 1, e, p)
    ensures Dead(subs[c], now) ==> Counters(subs, done + {c}, now, a, e + 1, p)
    ensures IsPending(subs[c]) ==> Counters(subs, done + {c}, now, a, e, p + 1)
    ensures !Live(subs[c], now) && !Dead(subs[c], now) && !IsPending(subs[c]) ==>
      Counters(subs, done + {c}, now, a, e, p)
  {
    hide Live, Dead, IsPending;
    Exclusive(subs[c], now);
    AddOne(LiveIn(subs, done, now), LiveIn(subs, done + {c}, now), c, Live(subs[c], now));
    AddOne(DeadIn(subs, done, now), DeadIn(subs, done + {c}, now), c, Dead(subs[c], now));
    AddOne(PendingIn(subs, done), PendingIn(subs, done + {c}), c, IsPending(subs[c]));
  }

  lemma CountNone(subs: map<string, Sub>, now: nat)
    ensures Counters(subs, {}, now, 0, 0, 0)
  {
    assert LiveIn(subs, {}, now) == DeadIn(subs, {}, now) == PendingIn(subs, {}) == {};
  }

  lemma CountAll(subs: map<string, Sub>, now: nat, a: nat, e: nat, p: nat)
    requires Counters(subs, subs.Keys, now, a, e, p)
    ensures a == |set c | c in subs && Live(subs[c], now)|
    ensures e == |set c | c in subs && Dead(subs[c], now)|
    ensures p == |set c | c in subs && IsPending(subs[c])|
  {
    hide Live, Dead, IsPending;
    assert LiveIn(subs, subs.Keys, now) == set c | c in subs && Live(subs[c], now);
    assert DeadIn(subs, subs.Keys, now) == set c | c in subs && Dead(subs[c], now);
    assert PendingIn(subs, subs.Keys) == set c | c in subs && IsPending(subs[c]);
  }

  lemma LiveSet(subs: map<string, Sub>, now: nat)
    ensures (set c | c in subs && Live(subs[c], now))
         == (set c | c in subs && subs[c].state == "active" && !(0 < subs[c].expiresAt <= now))
  {
  }

  lemma RowsAppend(subs: map<string, Sub>, order: seq<string>, c: string)
    requires c in subs && forall i :: 0 <= i < |order| ==> order[i] in subs
    ensures Text.Unlines(Rows(subs, order + [c])) == Text.Unlines(Rows(subs, order)) + (SubRow(subs[c]) + "\n")
  {
    hide SubRow;
    assert Rows(subs, order + [c]) == Rows(subs, order) + [SubRow(subs[c])];
    Text.UnlinesAppend(Rows(subs, order), [SubRow(subs[c])]);
    assert [SubRow(subs[c])][1..] == [];
    assert Text.Unlines([]) == "";
    assert SubRow(subs[c]) + "\n" + "" == SubRow(subs[c]) + "\n";
  }
}

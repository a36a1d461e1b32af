/** Every step of the protocol keeps the invariant. */
module ProtocolSteps {
  import opened Base
  import opened Lifecycle
  import opened Protocol
  import opened SubsSpec

  // ---- clock, verification requests, tombstones ---------------------------

  lemma TickStep(st: State, t: Clock)
    requires Inv(st) && t >= st.env.now
    ensures Inv(st.(env := st.env.(now := t)))
  {
    AllExtend(st, st.env.(now := t));
  }

  lemma LookupStep(st: State, token: string)
    requires Inv(st) && ByToken(st.reg, token).Some?
    ensures Inv(st.(verifies := st.verifies + multiset{ByToken(st.reg, token).value}))
  {
    hide Good;
  }

  lemma DropStep(st: State, s: Sub)
    requires Inv(st)
    ensures Inv(st.(verifies := st.verifies - multiset{s}))
  {
    BagShrinks(st.env, st.verifies, s);
    hide GoodBag;
  }

  lemma ForgetStep(st: State, token: string, at: nat)
    requires Inv(st)
    ensures Inv(st.(reg := ForgetReg(st.reg, token, at)))
  {
    var q := ForgetReg(st.reg, token, at);
    assert q.unsub.Keys <= st.reg.unsub.Keys;
    assert RegOk(st.env, q) by { hide Good; }
    hide Good, GoodBag, GoodSet, GoodMap;
  }

  // ---- the renew thread ---------------------------------------------------

  lemma ExpiredIsGood(e: Env, s: Sub, t: nat)
    requires Good(e, s)
    ensures Good(e, Expired(s, t))
    ensures Expired(s, t).token == s.token && Expired(s, t).secret == s.secret && Expired(s, t).channelId == s.channelId
  {
  }

  lemma ExpireKeeps(e: Env, r: Reg, t: nat)
    requires RegOk(e, r)
    ensures var q := ExpireReg(r, t);
      && RegOk(e, q) && q.subs.Keys == r.subs.Keys
      && forall c :: c in q.subs ==> q.subs[c].token == r.subs[c].token && q.subs[c].secret == r.subs[c].secret
  {
    var q := ExpireReg(r, t);
    forall c | c in q.subs
      ensures q.subs[c].channelId == c && Good(e, q.subs[c])
      ensures q.subs[c].token == r.subs[c].token && q.subs[c].secret == r.subs[c].secret
    {
      ExpiredIsGood(e, r.subs[c], t);
    }
    hide Good, Expired;
    assert q.subs.Keys == r.subs.Keys;
  }

  lemma ExpireStep(st: State, ok: bool)
    requires Inv(st) && st.renew.RStarted?
    ensures Inv(Expiring(st, ok))
  {
    ExpireKeeps(st.env, st.reg, st.renew.t);
    hide ExpireReg, RegOk, Good, GoodBag, Active, EnvOk;
    var q := ExpireReg(st.reg, st.renew.t);
    assert GoodMap(st.env, q.subs) by { RegOkHasGood(st.env, q); }
    assert ReconOk(q, st.recon);
    hide ReconOk, GoodMap;
  }

  lemma RegOkHasGood(e: Env, r: Reg)
    requires RegOk(e, r)
    ensures GoodMap(e, r.subs)
  {
  }

  lemma SnapshotStep(st: State)
    requires Inv(st) && st.renew.RExpired?
    ensures Inv(st.(renew := RPass(Candidates(st.reg, st.renew.t))))
  {
    hide Good, Due, GoodBag, ReconOk, Active;
  }

  lemma SentIsGood(e: Env, s: Sub)
    requires Good(e, s)
    ensures Good(e, s.(lastSubscribeAt := e.now))
  {
  }

  lemma SendStep(st: State, s: Sub)
    requires Inv(st) && st.renew.RPass? && s in st.renew.todo
    ensures Inv(st.(renew := RSent(st.renew.todo - {s}, s.(lastSubscribeAt := st.env.now))))
  {
    SentIsGood(st.env, s);
    var r := st.reg;
    var sent := s.(lastSubscribeAt := st.env.now);
    assert Active(sent) == Active(s) && Mergeable(r, sent) == Mergeable(r, s);
    hide Good, GoodBag, ReconOk, Active, Mergeable;
  }

  lemma AttemptedIsGood(e: Env, s: Sub, reply: Reply, draw: nat)
    requires Good(e, s)
    ensures Good(e, Attempted(s, reply, e.now, draw))
    ensures Active(Attempted(s, reply, e.now, draw)) == Active(s)
    ensures Attempted(s, reply, e.now, draw).token == s.token
    ensures Attempted(s, reply, e.now, draw).channelId == s.channelId
  {
    BackoffBounds((s.failCount + 1) % U32_BOUND, draw);
    hide Verdict, Backoff;
  }

  lemma VerdictStep(st: State, reply: Reply, draw: nat)
    requires Inv(st) && st.renew.RSent?
    ensures Inv(st.(renew := RMerging(st.renew.todo, Attempted(st.renew.s, reply, st.env.now, draw))))
  {
    var s := Attempted(st.renew.s, reply, st.env.now, draw);
    AttemptedIsGood(st.env, st.renew.s, reply, draw);
    assert Mergeable(st.reg, s) == Mergeable(st.reg, st.renew.s);
    hide Good, GoodBag, ReconOk, Active, Mergeable, Attempted;
  }

  lemma RenewMergeStep(st: State, ok: bool)
    requires Inv(st) && st.renew.RMerging?
    ensures Inv(RenewMerged(st, ok))
  {
    MergeStep(st, st.renew.s, ok);
    hide Good, GoodMap, GoodBag, ReconOk, RegOk, EnvOk, MergeReg, Active, Mergeable;
  }

  // ---- reconcile ----------------------------------------------------------

  lemma PlanIsOk(r: Reg, desired: seq<string>, complete: bool)
    requires Distinct(desired) && forall c :: c in desired ==> Plain(c)
    ensures PlanOk(r, PlanFor(r, desired, complete))
  {
    var p := PlanFor(r, desired, complete);
    var absent := (c: string) => c !in r.subs;
    FilterDistinct(absent, desired);
    assert p.adds == Filter(absent, desired);
    assert r.subs.Keys == r.subs.Keys + Elements(desired) - Elements(p.adds) - (Doomed(p) - p.dels);
  }

  lemma PlanStep(st: State, desired: seq<string>, complete: bool)
    requires Inv(st) && st.recon.CIdle? && Distinct(desired) && forall c :: c in desired ==> Plain(c)
    ensures Inv(st.(recon := CPlanned(PlanFor(st.reg, desired, complete))))
  {
    PlanIsOk(st.reg, desired, complete);
    hide Good, GoodMap, GoodBag, RegOk, EnvOk, PlanOk, Fresh;
  }

  lemma FirstSubIsGood(e: Env, s: Sub)
    requires s.state == "pending" && s.nextAttemptAt == 0 && s.lastSubscribeAt == e.now
    ensures Good(e.(ident := e.ident[s.token := Ident(s.channelId, s.topic, s.secret)]), s)
  {
  }

  /** A token that was never issued is in neither index. */
  lemma FreshToken(e: Env, r: Reg, token: string)
    requires RegOk(e, r) && token !in e.ident
    ensures token !in r.byToken && token !in r.unsub
  {
    forall t | t in r.byToken ensures t in e.ident {
      assert Known(e, r.subs[r.byToken[t]]);
    }
  }

  lemma InsertKeepsReg(e: Env, r: Reg, s: Sub)
    requires RegOk(e, r) && s.channelId !in r.subs && s.token !in r.byToken && s.token !in r.unsub && Good(e, s)
    ensures RegOk(e, InsertReg(r, s))
  {
    hide Good;
    InsertKeepsIndexIff(r, s);
    hide Indexed;
  }

  lemma InsertKeepsFresh(e: Env, r: Reg, s: Sub, ss: set<Sub>)
    requires Fresh(r, ss) && GoodSet(e, ss) && s.token !in e.ident
    ensures Fresh(InsertReg(r, s), ss)
  {
    forall x | x in ss ensures x.token != s.token { assert Good(e, x); }
    hide Active;
  }

  lemma InsertKeepsPlan(r: Reg, p: Plan, s: Sub)
    requires PlanOk(r, p) && p.adds != [] && s.channelId == p.adds[0]
    ensures PlanOk(InsertReg(r, s), p.(adds := p.adds[1..]))
    ensures s.channelId !in r.subs
  {
    var q := p.(adds := p.adds[1..]);
    assert p.adds[0] in p.adds;
    assert Elements(p.adds) == Elements(q.adds) + {p.adds[0]} by { Uncons(p.adds); }
    assert p.adds[0] !in q.adds;
    assert p.adds[0] in Elements(p.desired);
    assert p.adds[0] !in Doomed(p);
  }

  lemma FirstSubPending(st: State, token: string, secret: string)
    requires st.recon.CPlanned? && st.recon.plan.adds != []
    ensures var s := FirstSub(st, token, secret);
      !Active(s) && s.token == token && s.channelId == st.recon.plan.adds[0]
  {
  }

  lemma TopicIsPlain(c: string)
    requires Plain(c)
    ensures Plain(TopicFor(c))
  {
    TopicPartsPlain();
    hide Plain;
    PlainAppend("https://www.youtube.com", "/feeds/videos.xml");
    PlainAppend("https://www.youtube.com" + "/feeds/videos.xml", "?channel_id=");
    PlainAppend("https://www.youtube.com" + "/feeds/videos.xml" + "?channel_id=", c);
  }

  lemma TopicPartsPlain()
    ensures Plain("https://www.youtube.com") && Plain("/feeds/videos.xml") && Plain("?channel_id=")
  {
  }

  lemma PlainAppend(a: string, b: string)
    requires Plain(a) && Plain(b)
    ensures Plain(a + b)
  {
  }

  lemma FirstSubPlain(st: State, token: string, secret: string)
    requires st.recon.CPlanned? && st.recon.plan.adds != []
    requires Plain(token) && Plain(secret) && Plain(st.recon.plan.adds[0])
    ensures var s := FirstSub(st, token, secret); PlainIdent(token, Ident(s.channelId, s.topic, s.secret))
  {
    TopicIsPlain(st.recon.plan.adds[0]);
    hide Plain, TopicFor;
  }

  lemma InsertStep(st: State, token: string, secret: string)
    requires Inv(st) && st.recon.CPlanned? && st.recon.plan.adds != []
    requires token !in st.env.ident && Plain(token) && Plain(secret)
    ensures Inv(Inserted(st, token, secret))
    ensures st.recon.plan.adds[0] !in st.reg.subs
  {
    var s := FirstSub(st, token, secret);
    var f := st.env.(ident := st.env.ident[token := Ident(s.channelId, s.topic, s.secret)]);
    FirstSubPending(st, token, secret);
    FreshToken(st.env, st.reg, token);
    InsertKeepsPlan(st.reg, st.recon.plan, s);
    FirstSubIsGood(st.env, s);
    FirstSubPlain(st, token, secret);
    InsertKeepsFresh(st.env, st.reg, s, RenewSubs(st.renew));
    AllExtend(st, f);
    InsertKeepsReg(f, st.reg, s);
    hide Good, GoodMap, GoodBag, RegOk, EnvOk, PlanOk, Fresh, InsertReg, NewSub, FirstSub, Active;
  }

  lemma RefusedIsGood(e: Env, s: Sub, why: string, draw: nat)
    requires Good(e, s)
    ensures Good(e, Refused(s, why, e.now, draw)) && !Active(Refused(s, why, e.now, draw))
  {
    BackoffBounds(1, draw);
    hide Backoff;
  }

  lemma FirstVerdictStep(st: State, reply: Reply, draw: nat)
    requires Inv(st) && st.recon.CAdding?
    ensures Inv(st.(recon := FirstVerdict(st, reply, draw)))
  {
    match Verdict(reply) {
      case None =>
      case Some(why) => RefusedIsGood(st.env, st.recon.s, why, draw);
    }
    hide Good, GoodMap, GoodBag, RegOk, EnvOk, PlanOk, Fresh, Refused, Verdict, Active;
  }

  lemma ReconMergeStep(st: State, ok: bool)
    requires Inv(st) && st.recon.CMerging?
    ensures Inv(ReconMerged(st, ok))
  {
    MergeStep(st, st.recon.s, ok);
    hide Good, GoodMap, GoodBag, RegOk, EnvOk, MergeReg, PlanOk, Fresh, Mergeable;
  }

  lemma RemoveKeepsReg(e: Env, r: Reg, c: string, now: nat)
    requires RegOk(e, r)
    ensures RegOk(e, RemoveReg(r, c, now))
  {
    if c in r.subs {
      assert Known(e, r.subs[c]);
      assert RemoveReg(r, c, now).unsub.Keys <= r.unsub.Keys + {r.subs[c].token};
    }
    RemoveKeepsIndex(r, c, now);
    hide Good, Indexed, Separate, Sweep;
  }

  lemma RemoveKeepsPlan(r: Reg, p: Plan, c: string, now: nat)
    requires PlanOk(r, p) && c in p.dels
    ensures PlanOk(RemoveReg(r, c, now), p.(dels := p.dels - {c}))
  {
    var q := p.(dels := p.dels - {c});
    assert Doomed(q) == Doomed(p);
    assert RemoveReg(r, c, now).subs == r.subs - {c};
  }

  lemma RemoveStep(st: State, c: string)
    requires Inv(st) && st.recon.CPlanned? && c in st.recon.plan.dels
    ensures Inv(Removed(st, c))
  {
    RemoveKeepsReg(st.env, st.reg, c, st.env.now);
    RemoveKeepsPlan(st.reg, st.recon.plan, c, st.env.now);
    assert Fresh(RemoveReg(st.reg, c, st.env.now), RenewSubs(st.renew)) by { hide Active; }
    hide Good, GoodMap, GoodBag, RegOk, EnvOk, PlanOk, Fresh, RemoveReg;
  }

  lemma FinishStep(st: State, ok: bool)
    requires Inv(st) && st.recon.CPlanned?
    ensures Inv(st.(saved := if ok then st.reg.subs else st.saved, recon := CIdle))
  {
    hide Good, GoodMap, GoodBag, EnvOk, PlanOk, Fresh, Indexed, Separate;
  }

  // ---- restart ------------------------------------------------------------

  lemma ClampedIsGood(e: Env, s: Sub)
    requires Good(e, s)
    ensures Good(e, Clamped(s))
  {
  }

  /** A good record fits the registry file. */
  lemma GoodIsClean(e: Env, s: Sub)
    requires EnvOk(e) && Good(e, s)
    ensures CleanIds(s)
  {
    assert PlainIdent(s.token, e.ident[s.token]);
    StatesArePlain(s.state);
    hide IsState, Backed, Healthy;
    var raw := [s.channelId, s.token, s.topic, s.secret, s.state];
    assert RawFields(s) == raw;
    forall i | 0 <= i < 5 ensures Plain(raw[i]) {}
  }

  lemma StatesArePlain(state: string)
    requires IsState(state)
    ensures Plain(state)
  {
  }

  lemma TokensDiffer(e: Env, m: map<string, Sub>, c: string, d: string)
    requires GoodMap(e, m) && c in m && d in m && m[c].token == m[d].token
    ensures c == d
  {
    assert Good(e, m[c]) && Good(e, m[d]);
    hide Good;
    assert Known(e, m[c]) && Known(e, m[d]) by { GoodIsKnown(e, m[c]); GoodIsKnown(e, m[d]); }
  }

  lemma GoodIsKnown(e: Env, s: Sub)
    requires Good(e, s)
    ensures Known(e, s)
  {
  }

  /** The registry that a map of good records stands for. */
  ghost function RegOf(e: Env, m: map<string, Sub>): (r: Reg)
    requires GoodMap(e, m)
    ensures r.subs == m && Indexed(r) && r.unsub == map[]
  {
    assert forall c, d :: c in m && d in m && m[c].token == m[d].token ==> c == d by {
      forall c, d | c in m && d in m && m[c].token == m[d].token ensures c == d { TokensDiffer(e, m, c, d); }
    }
    Reg(m, map c | c in m :: m[c].token := c, map[])
  }

  /** What a new process starts with: the saved records, errors cut to the kept length, and their index. */
  lemma ReloadedIs(e: Env, m: map<string, Sub>, order: seq<string>)
    requires EnvOk(e) && GoodMap(e, m) && IsOrder(order, m.Keys)
    ensures Reloaded(m, order) == RegOf(e, m).(subs := ClampAll(m))
  {
    hide Good, EnvOk, CleanIds, Indexed, LoadReg, SavedFile, ClampAll, RegOf;
    forall c | c in m ensures CleanIds(m[c]) { GoodIsClean(e, m[c]); }
    LoadAfterSave(RegOf(e, m), order);
  }

  lemma ClampKeepsIndex(r: Reg)
    requires Indexed(r)
    ensures Indexed(r.(subs := ClampAll(r.subs)))
  {
  }

  lemma ClampedMapIsGood(e: Env, m: map<string, Sub>)
    requires GoodMap(e, m)
    ensures GoodMap(e, ClampAll(m))
  {
    forall c | c in m ensures Good(e, Clamped(m[c])) && Clamped(m[c]).channelId == c { ClampedIsGood(e, m[c]); }
    hide Good, Clamped;
  }

  lemma NewProcess(st: State, r: Reg)
    requires Inv(st) && Indexed(r) && r.unsub == map[] && GoodMap(st.env, r.subs)
    ensures Inv(State(st.env, r, st.saved, RIdle, CIdle, multiset{}))
  {
    hide Good, Indexed, EnvOk, GoodMap;
  }

  lemma RestartStep(st: State, order: seq<string>)
    requires Inv(st) && IsOrder(order, st.saved.Keys)
    ensures Inv(State(st.env, Reloaded(st.saved, order), st.saved, RIdle, CIdle, multiset{}))
  {
    SavedIsGood(st);
    hide *;
    var r := RegOf(st.env, st.saved);
    ReloadedIs(st.env, st.saved, order);
    ClampKeepsIndex(r);
    ClampedMapIsGood(st.env, st.saved);
    NewProcess(st, Reloaded(st.saved, order));
  }

  lemma SavedIsGood(st: State)
    requires Inv(st)
    ensures GoodMap(st.env, st.saved) && EnvOk(st.env)
  {
  }

  // ---- all steps ----------------------------------------------------------

  lemma StepKeepsInv(st: State, a: Step)
    requires Inv(st) && Enabled(st, a)
    ensures Inv(Next(st, a))
  {
    hide Inv, Activated, Expiring, RenewMerged, Inserted, ReconMerged, Removed, FirstVerdict;
    hide PlanFor, Candidates, Attempted, Reloaded;
    match a {
      case Tick(t) => TickStep(st, t);
      case VerifyLookup(token) => LookupStep(st, token);
      case VerifyActivate(s, q, ok) => ActivateStep(st, s, RequestedLease(q, st.env.cfgLease), ok);
      case VerifyDrop(s) => DropStep(st, s);
      case UnsubForget(token, at) => ForgetStep(st, token, at);
      case RenewStart => IdleRenew(st, RStarted(st.env.now));
      case RenewExpire(ok) => ExpireStep(st, ok);
      case RenewSnapshot => SnapshotStep(st);
      case RenewSend(s) => SendStep(st, s);
      case RenewVerdict(reply, draw) => VerdictStep(st, reply, draw);
      case RenewMerge(ok) => RenewMergeStep(st, ok);
      case RenewDone => IdleRenew(st, RIdle);
      case ReconPlan(desired, complete) => PlanStep(st, desired, complete);
      case ReconInsert(token, secret) => InsertStep(st, token, secret);
      case ReconVerdict(reply, draw) => FirstVerdictStep(st, reply, draw);
      case ReconMerge(ok) => ReconMergeStep(st, ok);
      case ReconRemove(c) => RemoveStep(st, c);
      case ReconFinish(ok) => FinishStep(st, ok);
      case Restart(order) => RestartStep(st, order);
    }
  }

  lemma IdleRenew(st: State, r: Renew)
    requires Inv(st) && RenewSubs(r) == {}
    ensures Inv(st.(renew := r))
  {
    hide Good, GoodMap, GoodBag, EnvOk, PlanOk, RegOk;
  }
}

/**
 * The subscription protocol: verification requests, renew passes and reconciles over one registry.
 * Each step is one lock-held region, or the moment between two regions where the clock is read.
 */
module Protocol {
  import opened Base
  import opened Lifecycle
  import opened SubsSpec

  /** What a callback token stands for, once and for all. */
  datatype Ident = Ident(channelId: string, topic: string, secret: string)

  /** The world outside the registry: configured lease, clock, issued tokens, latest verification. */
  datatype Env = Env(cfgLease: U64, now: Clock, ident: map<string, Ident>, verified: map<string, Clock>)

  /** Where the renew thread is, with the snapshots it holds outside the lock. */
  datatype Renew =
    | RIdle
    | RStarted(t: Clock)
    | RExpired(t: Clock)
    | RPass(todo: set<Sub>)
    | RSent(todo: set<Sub>, s: Sub)
    | RMerging(todo: set<Sub>, s: Sub)

  /** A reconcile's plan: made from `start`, with `adds` and `dels` still to do. */
  datatype Plan = Plan(
    desired: seq<string>,
    complete: bool,
    start: map<string, Sub>,
    adds: seq<string>,
    dels: set<string>)

  /** Where the one running reconcile is. */
  datatype Recon =
    | CIdle
    | CPlanned(plan: Plan)
    | CAdding(plan: Plan, s: Sub)
    | CMerging(plan: Plan, s: Sub)

  /** `saved` is what the registry file holds; `verifies` are verification requests between their two regions. */
  datatype State = State(
    env: Env,
    reg: Reg,
    saved: map<string, Sub>,
    renew: Renew,
    recon: Recon,
    verifies: multiset<Sub>)

  datatype Step =
    | Tick(t: Clock)
    | VerifyLookup(token: string)
    | VerifyActivate(s: Sub, q: Request, ok: bool)
    | VerifyDrop(s: Sub)
    | UnsubForget(token: string, at: nat)
    | RenewStart
    | RenewExpire(ok: bool)
    | RenewSnapshot
    | RenewSend(s: Sub)
    | RenewVerdict(reply: Reply, draw: nat)
    | RenewMerge(ok: bool)
    | RenewDone
    | ReconPlan(desired: seq<string>, complete: bool)
    | ReconInsert(token: string, secret: string)
    | ReconVerdict(reply: Reply, draw: nat)
    | ReconMerge(ok: bool)
    | ReconRemove(channelId: string)
    | ReconFinish(ok: bool)
    | Restart(order: seq<string>)

  function PlanFor(r: Reg, desired: seq<string>, complete: bool): Plan {
    Plan(desired, complete, r.subs, PlanAdds(r, desired), PlanRemoves(r, desired, complete))
  }

  /** Text that a raw column of the registry file can hold. */
  predicate Plain(s: string) { '\t' !in s && '\n' !in s }

  /** What a new process reads from the file of a registry that was written in the given order. */
  function Reloaded(saved: map<string, Sub>, order: seq<string>): Reg
    requires forall i :: 0 <= i < |order| ==> order[i] in saved
  {
    LoadReg(SavedFile(saved, order))
  }

  /**
   * Desired channels passed `is_channel_id`, tokens and secrets are drawn as hex digits, and a token
   * is never drawn twice; a restart is possible at any moment.
   */
  ghost predicate Enabled(st: State, a: Step) {
    match a
    case Tick(t) => t >= st.env.now
    case VerifyLookup(token) => ByToken(st.reg, token).Some?
    case VerifyActivate(s, q, _) => s in st.verifies && Genuine(s, q) && q.mode == "subscribe"
    case VerifyDrop(s) => s in st.verifies
    case UnsubForget(_, at) => at <= st.env.now
    case RenewStart => st.renew.RIdle?
    case RenewExpire(_) => st.renew.RStarted?
    case RenewSnapshot => st.renew.RExpired?
    case RenewSend(s) => st.renew.RPass? && s in st.renew.todo
    case RenewVerdict(_, _) => st.renew.RSent?
    case RenewMerge(_) => st.renew.RMerging?
    case RenewDone => st.renew.RPass? && st.renew.todo == {}
    case ReconPlan(desired, _) => st.recon.CIdle? && Distinct(desired) && forall c :: c in desired ==> Plain(c)
    case ReconInsert(token, secret) =>
      && st.recon.CPlanned? && st.recon.plan.adds != []
      && token !in st.env.ident && Plain(token) && Plain(secret)
    case ReconVerdict(_, _) => st.recon.CAdding?
    case ReconMerge(_) => st.recon.CMerging?
    case ReconRemove(c) => st.recon.CPlanned? && st.recon.plan.adds == [] && c in st.recon.plan.dels
    case ReconFinish(_) => st.recon.CPlanned? && st.recon.plan.adds == [] && st.recon.plan.dels == {}
    case Restart(order) => IsOrder(order, st.saved.Keys)
  }

  /** The subscription a reconcile registers before it contacts the hub. */
  function FirstSub(st: State, token: string, secret: string): Sub
    requires st.recon.CPlanned? && st.recon.plan.adds != []
  {
    NewSub(st.recon.plan.adds[0], token, secret).(lastSubscribeAt := st.env.now)
  }

  function Activated(st: State, s: Sub, requested: U64, ok: bool): State {
    var c, left := s.channelId, st.(verifies := st.verifies - multiset{s});
    if c in st.reg.subs then
      var reg := ActivateReg(st.reg, c, requested, st.env.cfgLease, st.env.now);
      left.(reg := reg, saved := if ok then reg.subs else st.saved,
            env := st.env.(verified := st.env.verified[c := st.env.now]))
    else left
  }

  function Expiring(st: State, ok: bool): State
    requires st.renew.RStarted?
  {
    var reg := ExpireReg(st.reg, st.renew.t);
    st.(reg := reg, saved := if ok && reg != st.reg then reg.subs else st.saved, renew := RExpired(st.renew.t))
  }

  function RenewMerged(st: State, ok: bool): State
    requires st.renew.RMerging?
  {
    var reg := MergeReg(st.reg, st.renew.s);
    st.(reg := reg, saved := if ok && Mergeable(st.reg, st.renew.s) then reg.subs else st.saved,
        renew := RPass(st.renew.todo))
  }

  function Inserted(st: State, token: string, secret: string): State
    requires st.recon.CPlanned? && st.recon.plan.adds != []
  {
    var s := FirstSub(st, token, secret);
    st.(reg := InsertReg(st.reg, s),
        env := st.env.(ident := st.env.ident[token := Ident(s.channelId, s.topic, s.secret)]),
        recon := CAdding(st.recon.plan.(adds := st.recon.plan.adds[1..]), s))
  }

  function FirstVerdict(st: State, reply: Reply, draw: nat): Recon
    requires st.recon.CAdding?
  {
    match Verdict(reply)
    case None => CPlanned(st.recon.plan)
    case Some(why) => CMerging(st.recon.plan, Refused(st.recon.s, why, st.env.now, draw))
  }

  function ReconMerged(st: State, ok: bool): State
    requires st.recon.CMerging?
  {
    var reg := MergeReg(st.reg, st.recon.s);
    st.(reg := reg, saved := if ok && Mergeable(st.reg, st.recon.s) then reg.subs else st.saved,
        recon := CPlanned(st.recon.plan))
  }

  function Removed(st: State, c: string): State
    requires st.recon.CPlanned?
  {
    st.(reg := RemoveReg(st.reg, c, st.env.now),
        recon := CPlanned(st.recon.plan.(dels := st.recon.plan.dels - {c})))
  }

  ghost function Next(st: State, a: Step): State
    requires Enabled(st, a)
  {
    match a
    case Tick(t) => st.(env := st.env.(now := t))
    case VerifyLookup(token) => st.(verifies := st.verifies + multiset{ByToken(st.reg, token).value})
    case VerifyActivate(s, q, ok) => Activated(st, s, RequestedLease(q, st.env.cfgLease), ok)
    case VerifyDrop(s) => st.(verifies := st.verifies - multiset{s})
    case UnsubForget(token, at) => st.(reg := ForgetReg(st.reg, token, at))
    case RenewStart => st.(renew := RStarted(st.env.now))
    case RenewExpire(ok) => Expiring(st, ok)
    case RenewSnapshot => st.(renew := RPass(Candidates(st.reg, st.renew.t)))
    case RenewSend(s) => st.(renew := RSent(st.renew.todo - {s}, s.(lastSubscribeAt := st.env.now)))
    case RenewVerdict(reply, draw) =>
      st.(renew := RMerging(st.renew.todo, Attempted(st.renew.s, reply, st.env.now, draw)))
    case RenewMerge(ok) => RenewMerged(st, ok)
    case RenewDone => st.(renew := RIdle)
    case ReconPlan(desired, complete) => st.(recon := CPlanned(PlanFor(st.reg, desired, complete)))
    case ReconInsert(token, secret) => Inserted(st, token, secret)
    case ReconVerdict(reply, draw) => st.(recon := FirstVerdict(st, reply, draw))
    case ReconMerge(ok) => ReconMerged(st, ok)
    case ReconRemove(c) => Removed(st, c)
    case ReconFinish(ok) => st.(saved := if ok then st.reg.subs else st.saved, recon := CIdle)
    case Restart(order) => State(st.env, Reloaded(st.saved, order), st.saved, RIdle, CIdle, multiset{})
  }

  // ---- the invariant ------------------------------------------------------

  /** The record carries an issued token and the channel, topic and secret it was issued for. */
  predicate Known(e: Env, s: Sub) {
    s.token in e.ident && e.ident[s.token] == Ident(s.channelId, s.topic, s.secret)
  }

  predicate Healthy(e: Env, s: Sub) {
    && IsState(s.state)
    && (Active(s) ==> s.expiresAt > 0)
    && s.nextAttemptAt <= e.now + MAX_BACKOFF
    && s.lastSubscribeAt <= e.now
  }

  /** An active record never claims more than the configured lease after a real verification. */
  predicate Backed(e: Env, s: Sub) {
    Active(s) ==>
      && s.channelId in e.verified
      && s.expiresAt <= e.verified[s.channelId] + Max(e.cfgLease, 1)
  }

  predicate Good(e: Env, s: Sub) { Known(e, s) && Healthy(e, s) && Backed(e, s) }

  ghost predicate GoodMap(e: Env, m: map<string, Sub>) {
    forall c :: c in m ==> m[c].channelId == c && Good(e, m[c])
  }

  ghost predicate GoodSet(e: Env, ss: set<Sub>) { forall s :: s in ss ==> Good(e, s) }

  ghost predicate GoodBag(e: Env, ss: multiset<Sub>) { forall s :: s in ss ==> Good(e, s) }

  function RenewSubs(r: Renew): set<Sub> {
    match r
    case RPass(todo) => todo
    case RSent(todo, s) => todo + {s}
    case RMerging(todo, s) => todo + {s}
    case _ => {}
  }

  function ReconSubs(r: Recon): set<Sub> {
    match r
    case CAdding(_, s) => {s}
    case CMerging(_, s) => {s}
    case _ => {}
  }

  ghost predicate RegOk(e: Env, r: Reg) {
    Indexed(r) && Separate(r) && r.unsub.Keys <= e.ident.Keys && GoodMap(e, r.subs)
  }

  /** A snapshot the renew thread took as active is not written back over a lapsed record. */
  ghost predicate Fresh(r: Reg, ss: set<Sub>) {
    forall s :: s in ss && Active(s) && Mergeable(r, s) ==> Active(r.subs[s.channelId])
  }

  function Doomed(p: Plan): set<string> { if p.complete then p.start.Keys - Elements(p.desired) else {} }

  ghost predicate PlanOk(r: Reg, p: Plan) {
    && Distinct(p.adds)
    && (forall c :: c in p.adds ==> Plain(c))
    && (forall c :: c in p.adds ==> c in p.desired && c !in p.start)
    && p.dels <= Doomed(p)
    && r.subs.Keys == p.start.Keys + Elements(p.desired) - Elements(p.adds) - (Doomed(p) - p.dels)
    && (forall c :: c in p.start && c in r.subs ==>
          r.subs[c].token == p.start[c].token && r.subs[c].secret == p.start[c].secret)
  }

  ghost predicate ReconOk(r: Reg, c: Recon) {
    && (c.CIdle? || PlanOk(r, c.plan))
    && forall s :: s in ReconSubs(c) ==> !Active(s)
  }

  predicate PlainIdent(token: string, i: Ident) {
    Plain(token) && Plain(i.channelId) && Plain(i.topic) && Plain(i.secret)
  }

  ghost predicate EnvOk(e: Env) {
    && (forall c :: c in e.verified ==> e.verified[c] <= e.now)
    && (forall t :: t in e.ident ==> PlainIdent(t, e.ident[t]))
  }

  ghost predicate Inv(st: State) {
    && EnvOk(st.env)
    && RegOk(st.env, st.reg)
    && GoodMap(st.env, st.saved)
    && GoodSet(st.env, RenewSubs(st.renew))
    && GoodSet(st.env, ReconSubs(st.recon))
    && GoodBag(st.env, st.verifies)
    && Fresh(st.reg, RenewSubs(st.renew))
    && ReconOk(st.reg, st.recon)
  }

  /** A first start: nothing registered, nothing saved, no thread at work. */
  ghost predicate Init(st: State) {
    && st.reg == Reg(map[], map[], map[]) && st.saved == map[]
    && st.env.ident == map[] && st.env.verified == map[]
    && st.renew.RIdle? && st.recon.CIdle? && st.verifies == multiset{}
  }

  lemma InitInv(st: State)
    requires Init(st)
    ensures Inv(st)
  {
  }

  // ---- records stay good --------------------------------------------------

  predicate Extends(e: Env, f: Env) {
    && e.cfgLease == f.cfgLease && e.now <= f.now
    && (forall t :: t in e.ident ==> t in f.ident && f.ident[t] == e.ident[t])
    && (forall c :: c in e.verified ==> c in f.verified && e.verified[c] <= f.verified[c])
  }

  lemma GoodExtends(e: Env, f: Env, s: Sub)
    requires Extends(e, f) && Good(e, s)
    ensures Good(f, s)
  {
  }

  lemma GoodMapExtends(e: Env, f: Env, m: map<string, Sub>)
    requires Extends(e, f) && GoodMap(e, m)
    ensures GoodMap(f, m)
  {
    hide Good, Extends;
    forall c | c in m ensures Good(f, m[c]) { GoodExtends(e, f, m[c]); }
  }

  lemma GoodSetExtends(e: Env, f: Env, ss: set<Sub>)
    requires Extends(e, f) && GoodSet(e, ss)
    ensures GoodSet(f, ss)
  {
    hide Good, Extends;
    forall s | s in ss ensures Good(f, s) { GoodExtends(e, f, s); }
  }

  lemma GoodBagExtends(e: Env, f: Env, ss: multiset<Sub>)
    requires Extends(e, f) && GoodBag(e, ss)
    ensures GoodBag(f, ss)
  {
    hide Good, Extends;
    forall s | s in ss ensures Good(f, s) { GoodExtends(e, f, s); }
  }

  lemma AllExtend(st: State, f: Env)
    requires Inv(st) && Extends(st.env, f) && EnvOk(f)
    ensures Inv(st.(env := f))
  {
    assert st.env.ident.Keys <= f.ident.Keys;
    GoodMapExtends(st.env, f, st.reg.subs);
    GoodMapExtends(st.env, f, st.saved);
    GoodSetExtends(st.env, f, RenewSubs(st.renew));
    GoodSetExtends(st.env, f, ReconSubs(st.recon));
    GoodBagExtends(st.env, f, st.verifies);
    hide Good, GoodMap, GoodSet, GoodBag, Fresh, ReconOk, Indexed, Separate, EnvOk;
  }

  // ---- in-place updates ---------------------------------------------------

  /** Storing a record under the token its channel already has changes that record and nothing else. */
  lemma UpdateInPlace(r: Reg, s: Sub)
    requires Indexed(r) && Mergeable(r, s)
    ensures UpdateReg(r, s) == r.(subs := r.subs[s.channelId := s])
  {
    var q := UpdateReg(r, s);
    assert r.byToken[s.token] == s.channelId;
    assert q.byToken == r.byToken;
  }

  ghost predicate SameButRecord(r: Reg, q: Reg, s: Sub) {
    && Mergeable(r, s)
    && q == r.(subs := r.subs[s.channelId := s])
    && (Active(r.subs[s.channelId]) ==> Active(s))
    && s.secret == r.subs[s.channelId].secret
  }

  lemma RecordKeepsReg(e: Env, r: Reg, q: Reg, s: Sub)
    requires RegOk(e, r) && SameButRecord(r, q, s) && Good(e, s)
    ensures RegOk(e, q)
  {
    hide Good;
  }

  lemma RecordKeepsFresh(r: Reg, q: Reg, s: Sub, ss: set<Sub>)
    requires Fresh(r, ss) && SameButRecord(r, q, s)
    ensures Fresh(q, ss)
  {
    hide Active;
  }

  lemma RecordKeepsRecon(r: Reg, q: Reg, s: Sub, c: Recon)
    requires ReconOk(r, c) && SameButRecord(r, q, s)
    ensures ReconOk(q, c)
  {
    assert q.subs.Keys == r.subs.Keys;
  }

  // ---- verification -------------------------------------------------------

  lemma VerifiedIsGood(e: Env, s: Sub, requested: U64)
    requires Good(e, s)
    ensures Good(e.(verified := e.verified[s.channelId := e.now]), Verified(s, requested, e.cfgLease, e.now))
  {
  }

  lemma ActivateStep(st: State, s: Sub, requested: U64, ok: bool)
    requires Inv(st)
    ensures Inv(Activated(st, s, requested, ok))
  {
    var c, e := s.channelId, st.env;
    hide IsState;
    if c in st.reg.subs {
      var f := e.(verified := e.verified[c := e.now]);
      var rec := Verified(st.reg.subs[c], requested, e.cfgLease, e.now);
      VerifiedIsGood(e, st.reg.subs[c], requested);
      assert Extends(e, f) && EnvOk(f);
      AllExtend(st, f);
      UpdateInPlace(st.reg, rec);
      StoreRecord(st.(env := f), rec, ok);
    }
    BagShrinks(st.env, st.verifies, s);
    hide Good, GoodMap, GoodSet, GoodBag, Fresh, ReconOk, RegOk, EnvOk, Verified, UpdateReg, GrantedLease;
  }

  lemma BagShrinks(e: Env, b: multiset<Sub>, s: Sub)
    requires GoodBag(e, b)
    ensures GoodBag(e, b - multiset{s})
  {
  }

  /** Storing a good record in place, and perhaps saving, keeps everything. */
  lemma StoreRecord(st: State, s: Sub, ok: bool)
    requires Inv(st) && Good(st.env, s) && Mergeable(st.reg, s)
    requires Active(st.reg.subs[s.channelId]) ==> Active(s)
    requires s.secret == st.reg.subs[s.channelId].secret
    ensures var reg := st.reg.(subs := st.reg.subs[s.channelId := s]);
      Inv(st.(reg := reg, saved := if ok then reg.subs else st.saved))
  {
    var reg := st.reg.(subs := st.reg.subs[s.channelId := s]);
    RecordKeepsReg(st.env, st.reg, reg, s);
    RecordKeepsFresh(st.reg, reg, s, RenewSubs(st.renew));
    RecordKeepsRecon(st.reg, reg, s, st.recon);
    hide Good, GoodMap, GoodSet, GoodBag, Fresh, ReconOk, Indexed, Separate, EnvOk;
  }

  lemma MergedIsGood(e: Env, cur: Sub, s: Sub)
    requires Good(e, cur) && Good(e, s) && cur.token == s.token
    ensures Good(e, Merged(cur, s)) && Merged(cur, s).secret == cur.secret
    ensures Merged(cur, s).channelId == cur.channelId && Merged(cur, s).token == cur.token
    ensures Active(cur) ==> Active(Merged(cur, s))
  {
    hide IsState;
  }

  /** `merge_attempt` with a good attempt, whichever thread made it. */
  lemma MergeStep(st: State, s: Sub, ok: bool)
    requires Inv(st) && Good(st.env, s)
    ensures var reg := MergeReg(st.reg, s);
      Inv(st.(reg := reg, saved := if ok && Mergeable(st.reg, s) then reg.subs else st.saved))
  {
    if Mergeable(st.reg, s) {
      var cur := st.reg.subs[s.channelId];
      MergedIsGood(st.env, cur, s);
      UpdateInPlace(st.reg, Merged(cur, s));
      StoreRecord(st, Merged(cur, s), ok);
    }
    hide Good, GoodMap, GoodSet, GoodBag, Fresh, ReconOk, RegOk, EnvOk, Merged, UpdateReg, Mergeable;
  }
}

/** Requests that outlive their subscription, saves that fail, and runs in which both happen. */
module ProtocolRuns {
  import opened Base
  import opened Lifecycle
  import opened Protocol
  import opened ProtocolSteps
  import opened ProtocolTheorems
  import opened SubsSpec

  // ---- a verification that outlived its token -----------------------------

  predicate Carries(r: Reg, c: string, token: string) { c in r.subs && r.subs[c].token == token }

  predicate Removes(a: Step, c: string) { a.ReconRemove? && a.channelId == c }

  /** An issued token stays at its channel, or away from it, until that channel is removed. */
  ghost predicate TokenStays(st: State, a: Step, c: string, token: string)
    requires Enabled(st, a)
  {
    var after := Next(st, a).reg;
    if Removes(a, c) then !Carries(after, c, token) else Carries(after, c, token) <==> Carries(st.reg, c, token)
  }

  lemma MergeTokens(r: Reg, s: Sub, c: string, token: string)
    requires Indexed(r)
    ensures Carries(MergeReg(r, s), c, token) <==> Carries(r, c, token)
  {
    if Mergeable(r, s) {
      UpdateInPlace(r, Merged(r.subs[s.channelId], s));
    }
    hide UpdateReg, Indexed;
  }

  lemma VerifyTokens(st: State, a: Step, c: string, token: string)
    requires Inv(st) && Enabled(st, a) && a.VerifyActivate?
    ensures TokenStays(st, a, c, token)
  {
    ActivateEffect(st, a.s, RequestedLease(a.q, st.env.cfgLease), a.ok, c);
    hide Activated, Inv, Genuine, ActiveAt;
  }

  lemma InsertedTokens(st: State, own: string, secret: string, c: string, token: string)
    requires st.recon.CPlanned? && st.recon.plan.adds != [] && st.recon.plan.adds[0] !in st.reg.subs && own != token
    ensures Carries(Inserted(st, own, secret).reg, c, token) <==> Carries(st.reg, c, token)
  {
    FirstSubPending(st, own, secret);
    hide FirstSub;
  }

  lemma InsertTokens(st: State, a: Step, c: string, token: string)
    requires Inv(st) && Enabled(st, a) && a.ReconInsert? && token in st.env.ident
    ensures TokenStays(st, a, c, token)
  {
    InsertStep(st, a.token, a.secret);
    InsertedTokens(st, a.token, a.secret, c, token);
    hide Inserted, Inv, Carries, Plain;
  }

  lemma MergeStepTokens(st: State, a: Step, c: string, token: string)
    requires Inv(st) && Enabled(st, a) && (a.RenewMerge? || a.ReconMerge?)
    ensures TokenStays(st, a, c, token)
  {
    MergeTokens(st.reg, if a.RenewMerge? then st.renew.s else st.recon.s, c, token);
    hide MergeReg, Inv, Carries;
  }

  lemma ExpireTokens(st: State, a: Step, c: string, token: string)
    requires Enabled(st, a) && a.RenewExpire?
    ensures TokenStays(st, a, c, token)
  {
    hide LeaseExpired, Active;
  }

  lemma RemoveTokens(st: State, a: Step, c: string, token: string)
    requires Enabled(st, a) && a.ReconRemove?
    ensures TokenStays(st, a, c, token)
  {
    hide Sweep;
  }

  lemma QuietTokens(st: State, a: Step, c: string, token: string)
    requires Enabled(st, a) && Quiet(a)
    ensures TokenStays(st, a, c, token)
  {
    QuietStep(st, a);
    assert !Removes(a, c);
    hide Enabled, Next;
  }

  lemma TokenStep(st: State, a: Step, c: string, token: string)
    requires Inv(st) && Enabled(st, a) && !a.Restart? && token in st.env.ident
    ensures TokenStays(st, a, c, token) && token in Next(st, a).env.ident
  {
    hide Inv, Enabled, Next, TokenStays;
    IssuedStays(st, a, token);
    if a.VerifyActivate? {
      VerifyTokens(st, a, c, token);
    } else if a.ReconInsert? {
      InsertTokens(st, a, c, token);
    } else if a.RenewExpire? {
      ExpireTokens(st, a, c, token);
    } else if a.ReconRemove? {
      RemoveTokens(st, a, c, token);
    } else if a.RenewMerge? || a.ReconMerge? {
      MergeStepTokens(st, a, c, token);
    } else {
      QuietTokens(st, a, c, token);
    }
  }

  lemma IssuedStays(st: State, a: Step, token: string)
    requires Enabled(st, a) && token in st.env.ident
    ensures token in Next(st, a).env.ident
  {
    hide Reloaded;
  }

  /** The request that step `j` looked up is still in flight at step `k`: there is no restart in between. */
  ghost predicate InFlight(states: seq<State>, steps: seq<Step>, j: nat, k: nat, s: Sub) {
    && IsRun(states, steps) && j < k < |steps|
    && steps[j].VerifyLookup? && ByToken(states[j].reg, steps[j].token) == Some(s)
    && forall m :: j < m < k ==> !steps[m].Restart?
  }

  ghost predicate NoRemoval(steps: seq<Step>, j: nat, k: nat, c: string) {
    k <= |steps| && forall m :: j < m < k ==> !Removes(steps[m], c)
  }

  lemma {:induction false} TokenWhileInFlight(states: seq<State>, steps: seq<Step>, j: nat, k: nat, s: Sub, m: nat)
    requires InFlight(states, steps, j, k, s) && j < m <= k
    ensures s.token in states[m].env.ident
    ensures Carries(states[m].reg, s.channelId, s.token) <==> NoRemoval(steps, j, m, s.channelId)
    decreases m
  {
    hide *;
    InFlightAt(states, steps, j, k, s, m - 1);
    RunInv(states, steps, m - 1);
    RunStep(states, steps, m - 1);
    NoRemovalNext(steps, j, m, s.channelId);
    if m == j + 1 {
      LookedUp(states[j], steps[j].token, s);
    } else {
      TokenWhileInFlight(states, steps, j, k, s, m - 1);
    }
    TokenNext(states[m - 1], steps[m - 1], states[m], s.channelId, s.token);
  }

  lemma InFlightAt(states: seq<State>, steps: seq<Step>, j: nat, k: nat, s: Sub, m: nat)
    requires InFlight(states, steps, j, k, s) && j <= m < k
    ensures IsRun(states, steps) && |states| == |steps| + 1 && k < |steps| && !steps[m].Restart?
    ensures steps[j].VerifyLookup? && ByToken(states[j].reg, steps[j].token) == Some(s)
    ensures !Removes(steps[j], s.channelId)
  {
    hide Init, Enabled, Next, ByToken;
  }

  lemma TokenNext(st: State, a: Step, q: State, c: string, token: string)
    requires Inv(st) && Enabled(st, a) && q == Next(st, a) && !a.Restart? && token in st.env.ident
    ensures token in q.env.ident
    ensures if Removes(a, c) then !Carries(q.reg, c, token) else Carries(q.reg, c, token) <==> Carries(st.reg, c, token)
  {
    TokenStep(st, a, c, token);
    hide Inv, Enabled, Next, Removes, Carries;
  }

  lemma NoRemovalNext(steps: seq<Step>, j: nat, m: nat, c: string)
    requires j < m <= |steps|
    ensures NoRemoval(steps, j, j + 1, c)
    ensures m > j + 1 ==> (NoRemoval(steps, j, m, c) <==> NoRemoval(steps, j, m - 1, c) && !Removes(steps[m - 1], c))
  {
    hide Removes;
  }

  lemma LookedUp(st: State, token: string, s: Sub)
    requires Inv(st) && ByToken(st.reg, token) == Some(s)
    ensures Carries(st.reg, s.channelId, s.token) && s.token in st.env.ident
  {
    assert Good(st.env, s);
  }

  /**
   * Activation re-fetches by channel and does not look at the token again. A request found by one
   * token activates the subscription of that token exactly when no reconcile removed the channel
   * between the lookup and the activation; otherwise it activates whatever took its place.
   */
  lemma ActivatesOwnTokenIff(states: seq<State>, steps: seq<Step>, j: nat, k: nat, s: Sub)
    requires InFlight(states, steps, j, k, s) && steps[k].VerifyActivate? && steps[k].s == s
    requires s.channelId in states[k].reg.subs
    ensures ActiveAt(states[k + 1].reg, s.channelId)
    ensures states[k + 1].reg.subs[s.channelId].token == s.token <==> NoRemoval(steps, j, k, s.channelId)
  {
    RunInv(states, steps, k);
    RunStep(states, steps, k);
    TokenWhileInFlight(states, steps, j, k, s, k);
    var st, a := states[k], steps[k];
    ActivateEffect(st, s, RequestedLease(a.q, st.env.cfgLease), a.ok, s.channelId);
    hide IsRun, Inv, Activated, NoRemoval, Active;
  }

  // ---- a token answers as soon as it is registered ------------------------

  /** The registration that step `j` made, with no restart up to the moment before step `k`. */
  ghost predicate RegisteredAt(states: seq<State>, steps: seq<Step>, j: nat, k: nat, c: string, token: string) {
    && IsRun(states, steps) && j < k <= |steps|
    && steps[j].ReconInsert? && steps[j].token == token
    && states[j].recon.CPlanned? && states[j].recon.plan.adds != [] && states[j].recon.plan.adds[0] == c
    && forall m :: j < m < k ==> !steps[m].Restart?
  }

  lemma InsertAnswers(st: State, a: Step, q: State, c: string)
    requires Enabled(st, a) && a.ReconInsert? && q == Next(st, a) && st.recon.plan.adds[0] == c
    ensures Carries(q.reg, c, a.token) && a.token in q.env.ident
    ensures q.env.ident[a.token].channelId == c
  {
    FirstSubPending(st, a.token, a.secret);
    hide FirstSub, Plain, TopicFor;
  }

  lemma RegisteredFacts(states: seq<State>, steps: seq<Step>, j: nat, k: nat, c: string, token: string)
    requires RegisteredAt(states, steps, j, k, c, token)
    ensures IsRun(states, steps) && |states| == |steps| + 1 && steps[j].ReconInsert? && steps[j].token == token
    ensures states[j].recon.CPlanned? && states[j].recon.plan.adds != [] && states[j].recon.plan.adds[0] == c
    ensures j < k <= |steps| && forall m :: j < m < k ==> !steps[m].Restart?
  {
    hide Init, Enabled, Next;
  }

  lemma IdentStays(st: State, a: Step, q: State, token: string)
    requires Enabled(st, a) && q == Next(st, a) && token in st.env.ident
    ensures token in q.env.ident && q.env.ident[token] == st.env.ident[token]
  {
    hide Reloaded;
  }

  lemma {:induction false} TokenSinceInsert(
    states: seq<State>, steps: seq<Step>, j: nat, k: nat, c: string, token: string, m: nat)
    requires RegisteredAt(states, steps, j, k, c, token) && j < m <= k
    ensures m < |states| && token in states[m].env.ident && states[m].env.ident[token].channelId == c
    ensures Carries(states[m].reg, c, token) <==> NoRemoval(steps, j, m, c)
    decreases m
  {
    hide *;
    RegisteredFacts(states, steps, j, k, c, token);
    RunStep(states, steps, m - 1);
    NoRemovalNext(steps, j, m, c);
    if m == j + 1 {
      InsertAnswers(states[j], steps[j], states[m], c);
    } else {
      TokenSinceInsert(states, steps, j, k, c, token, m - 1);
      RunInv(states, steps, m - 1);
      TokenNext(states[m - 1], steps[m - 1], states[m], c, token);
      IdentStays(states[m - 1], steps[m - 1], states[m], token);
    }
  }

  /** Only the channel a token was issued for can hold it. */
  lemma OnlyOwnChannel(st: State, c: string, token: string)
    requires Inv(st) && token in st.env.ident && st.env.ident[token].channelId == c
    ensures ByToken(st.reg, token).Some? <==> Carries(st.reg, c, token)
  {
    if ByToken(st.reg, token).Some? {
      var s := ByToken(st.reg, token).value;
      assert Good(st.env, s);
    }
    hide Good;
  }

  /**
   * A token is registered before the hub is contacted, and from then on it answers: at every moment up
   * to a restart, whatever runs beside, a request on its path finds a subscription exactly until a
   * reconcile removes the channel.
   */
  lemma TokenAnswersIff(states: seq<State>, steps: seq<Step>, j: nat, k: nat, c: string, token: string)
    requires RegisteredAt(states, steps, j, k, c, token)
    ensures k < |states| && (ByToken(states[k].reg, token).Some? <==> NoRemoval(steps, j, k, c))
  {
    hide *;
    RegisteredFacts(states, steps, j, k, c, token);
    TokenSinceInsert(states, steps, j, k, c, token, k);
    RunInv(states, steps, k);
    OnlyOwnChannel(states[k], c, token);
  }

  // ---- building runs ------------------------------------------------------

  datatype Trace = Trace(states: seq<State>, steps: seq<Step>)

  ghost predicate EndsAt(t: Trace, st: State) {
    IsRun(t.states, t.steps) && |t.states| == |t.steps| + 1 && t.states[|t.steps|] == st
  }

  predicate Continues(t: Trace, u: Trace) { t.states <= u.states && t.steps <= u.steps }

  lemma Then(t: Trace, st: State, a: Step) returns (u: Trace, next: State)
    requires EndsAt(t, st) && Enabled(st, a)
    ensures next == Next(st, a) && EndsAt(u, next)
    ensures u == Trace(t.states + [next], t.steps + [a])
  {
    next := Next(st, a);
    hide Init, Enabled, Next;
    u := Trace(t.states + [next], t.steps + [a]);
    forall k | 0 <= k < |u.steps|
      ensures Enabled(u.states[k], u.steps[k]) && u.states[k + 1] == Next(u.states[k], u.steps[k])
    {
      if k < |t.steps| {
        assert u.states[k] == t.states[k] && u.states[k + 1] == t.states[k + 1] && u.steps[k] == t.steps[k];
      }
    }
  }

  /** A machine that has never run before. */
  function FirstStart(cfgLease: U64, now: Clock): State {
    State(Env(cfgLease, now, map[], map[]), Reg(map[], map[], map[]), map[], RIdle, CIdle, multiset{})
  }

  lemma Begin(cfgLease: U64, now: Clock) returns (t: Trace)
    ensures EndsAt(t, FirstStart(cfgLease, now)) && t.steps == []
  {
    t := Trace([FirstStart(cfgLease, now)], []);
  }

  /** The state after an accepted subscribe: nothing else has moved. */
  function Subscribed(st: State, c: string, token: string, secret: string): State {
    var s := NewSub(c, token, secret).(lastSubscribeAt := st.env.now);
    var reg := InsertReg(st.reg, s);
    st.(reg := reg, saved := reg.subs, env := st.env.(ident := st.env.ident[token := Ident(c, s.topic, secret)]))
  }

  lemma OnePlanned(r: Reg, c: string)
    requires c !in r.subs
    ensures PlanFor(r, [c], false) == Plan([c], false, r.subs, [c], {})
  {
    FilterCons(d => d !in r.subs, c, []);
    assert [c] + [] == [c];
  }

  /** A reconcile that adds one channel, which the hub accepts: plan, insert, verdict, finish. */
  lemma Subscribe(t: Trace, st: State, c: string, token: string, secret: string) returns (u: Trace, end: State)
    requires EndsAt(t, st) && st.recon.CIdle? && c !in st.reg.subs && token !in st.env.ident
    requires Plain(c) && Plain(token) && Plain(secret)
    ensures end == Subscribed(st, c, token, secret) && EndsAt(u, end)
    ensures Continues(t, u) && |u.steps| == |t.steps| + 4
    ensures forall m :: |t.steps| <= m < |u.steps| ==> !u.steps[m].Restart? && !u.steps[m].ReconRemove?
  {
    hide EndsAt, Plain, TopicFor, PlanFor, Verdict, InsertReg;
    OnePlanned(st.reg, c);
    assert [c][1..] == [];
    var planned, inserted, settled;
    u, planned := Then(t, st, ReconPlan([c], false));
    assert planned == st.(recon := CPlanned(Plan([c], false, st.reg.subs, [c], {})));
    u, inserted := Then(u, planned, ReconInsert(token, secret));
    AcceptedVerdict();
    u, settled := Then(u, inserted, ReconVerdict(Status(202), 0));
    assert settled == inserted.(recon := CPlanned(Plan([c], false, st.reg.subs, [], {})));
    u, end := Then(u, settled, ReconFinish(true));
  }

  lemma AcceptedVerdict()
    ensures Verdict(Status(202)) == None
  {
  }

  /** The state after a reconcile that removed the only channel. */
  function Emptied(st: State, c: string): State {
    st.(reg := RemoveReg(st.reg, c, st.env.now), saved := map[])
  }

  lemma AllRemoved(r: Reg, c: string, now: nat)
    requires r.subs.Keys == {c}
    ensures PlanFor(r, [], true) == Plan([], true, r.subs, [], {c})
    ensures RemoveReg(r, c, now).subs == map[]
  {
    assert Elements<string>([]) == {};
  }

  /** A reconcile with an empty desired set: plan, remove, finish. */
  lemma Unsubscribe(t: Trace, st: State, c: string) returns (u: Trace, end: State)
    requires EndsAt(t, st) && st.recon.CIdle? && st.reg.subs.Keys == {c}
    ensures end == Emptied(st, c) && end.reg.subs == map[] && EndsAt(u, end)
    ensures Continues(t, u) && |u.steps| == |t.steps| + 3
    ensures forall m :: |t.steps| <= m < |u.steps| ==> !u.steps[m].Restart?
    ensures u.steps[|t.steps| + 1] == ReconRemove(c)
  {
    hide EndsAt, PlanFor, RemoveReg;
    AllRemoved(st.reg, c, st.env.now);
    var planned, removed;
    u, planned := Then(t, st, ReconPlan([], true));
    u, removed := Then(u, planned, ReconRemove(c));
    assert {c} - {c} == {};
    u, end := Then(u, removed, ReconFinish(true));
  }

  // ---- the runs -----------------------------------------------------------

  /** What the hub sends to have a subscription verified. */
  function Asking(s: Sub): Request { Request("subscribe", s.topic, "challenge", "", None) }

  lemma AskingIsGenuine(s: Sub)
    ensures Genuine(s, Asking(s)) && Asking(s).mode == "subscribe"
  {
  }

  lemma PendingRecord(st: State, c: string, token: string, secret: string)
    ensures var r := Subscribed(st, c, token, secret).reg;
      && r.subs == st.reg.subs[c := r.subs[c]] && ByToken(r, token) == Some(r.subs[c])
      && r.subs[c].channelId == c && r.subs[c].token == token && !Active(r.subs[c])
  {
    hide TopicFor;
  }

  lemma EndIndexed(t: Trace, st: State)
    requires EndsAt(t, st)
    ensures Indexed(st.reg)
  {
    RunInv(t.states, t.steps, |t.steps|);
    hide IsRun;
  }

  /** With a request in flight, the channel is removed and registered again under another token. */
  lemma Replace(t: Trace, st: State, c: string, token: string, secret: string) returns (u: Trace, end: State)
    requires EndsAt(t, st) && st.recon.CIdle? && st.reg.subs.Keys == {c} && token !in st.env.ident
    requires Plain(c) && Plain(token) && Plain(secret)
    ensures EndsAt(u, end) && Continues(t, u) && |u.steps| == |t.steps| + 7
    ensures forall m :: |t.steps| <= m < |u.steps| ==> !u.steps[m].Restart?
    ensures end.verifies == st.verifies && Carries(end.reg, c, token) && !ActiveAt(end.reg, c)
  {
    hide EndsAt, Plain, Subscribed, RemoveReg, ByToken, Active;
    var gone;
    u, gone := Unsubscribe(t, st, c);
    ghost var mid := u;
    u, end := Subscribe(u, gone, c, token, secret);
    PendingRecord(gone, c, token, secret);
    SubscribedRest(gone, c, token, secret);
    forall m | |t.steps| <= m < |u.steps| ensures !u.steps[m].Restart? {
      if m < |mid.steps| { assert u.steps[m] == mid.steps[m]; }
    }
  }

  lemma SubscribedRest(st: State, c: string, token: string, secret: string)
    ensures Subscribed(st, c, token, secret).verifies == st.verifies
  {
  }

  lemma ActivationEnds(t: Trace, st: State, s: Sub) returns (u: Trace, end: State)
    requires EndsAt(t, st) && s in st.verifies && s.channelId in st.reg.subs
    ensures EndsAt(u, end) && u == Trace(t.states + [end], t.steps + [VerifyActivate(s, Asking(s), true)])
    ensures ActiveAt(end.reg, s.channelId) && end.reg.subs[s.channelId].token == st.reg.subs[s.channelId].token
  {
    AskingIsGenuine(s);
    EndIndexed(t, st);
    var a := VerifyActivate(s, Asking(s), true);
    u, end := Then(t, st, a);
    ActivateEffect(st, s, RequestedLease(a.q, st.env.cfgLease), true, s.channelId);
    hide EndsAt, Activated, Asking, Genuine, Indexed, ActiveAt;
  }

  lemma FirstSubscribed(c: string, token: string, secret: string) returns (t: Trace, st: State)
    requires Plain(c) && Plain(token) && Plain(secret)
    ensures EndsAt(t, st) && st.recon.CIdle? && st.renew.RIdle?
    ensures st.reg.subs.Keys == {c} && st.env.ident.Keys == {token}
    ensures ByToken(st.reg, token) == Some(st.reg.subs[c]) && st.verifies == multiset{} && st.env.now == 1
    ensures st.env.cfgLease == 60
    ensures st.reg.subs[c].channelId == c && st.reg.subs[c].token == token
  {
    hide EndsAt, Plain;
    st := FirstStart(60, 1);
    t := Begin(60, 1);
    t, st := Subscribe(t, st, c, token, secret);
    PendingRecord(FirstStart(60, 1), c, token, secret);
    hide NewSub, ByToken, Active;
  }

  lemma LookUp(t: Trace, st: State, token: string, s: Sub) returns (u: Trace, end: State)
    requires EndsAt(t, st) && ByToken(st.reg, token) == Some(s)
    ensures end == st.(verifies := st.verifies + multiset{s}) && EndsAt(u, end)
    ensures u == Trace(t.states + [end], t.steps + [VerifyLookup(token)])
  {
    u, end := Then(t, st, VerifyLookup(token));
    hide EndsAt;
  }

  lemma InFlightIs(t: Trace, looked: Trace, st: State, u: Trace, token: string, s: Sub)
    requires EndsAt(t, st) && looked.steps == t.steps + [VerifyLookup(token)] && |looked.states| == |t.states| + 1
    requires t.states <= looked.states && ByToken(st.reg, token) == Some(s)
    requires Continues(looked, u) && IsRun(u.states, u.steps) && |looked.steps| < |u.steps|
    requires forall m :: |looked.steps| <= m < |u.steps| - 1 ==> !u.steps[m].Restart?
    ensures InFlight(u.states, u.steps, |t.steps|, |u.steps| - 1, s)
  {
    hide IsRun, ByToken;
    var j := |t.steps|;
    assert u.steps[j] == looked.steps[j] == VerifyLookup(token);
    assert u.states[j] == looked.states[j] == t.states[j] == st;
  }

  /**
   * From a first start the program reaches it, for any channel and any two tokens: a request looked
   * up under the first token activates the subscription that a remove and re-add put in its place.
   */
  lemma StaleVerification(c: string, first: string, second: string, secret: string)
    returns (t: Trace, j: nat, k: nat, s: Sub)
    requires Plain(c) && Plain(first) && Plain(second) && Plain(secret) && first != second
    ensures InFlight(t.states, t.steps, j, k, s) && s.token == first && s.channelId == c
    ensures t.steps[k].VerifyActivate? && t.steps[k].s == s
    ensures !ActiveAt(t.states[k].reg, c) && ActiveAt(t.states[k + 1].reg, c)
    ensures t.states[k + 1].reg.subs[c].token == second
  {
    hide Plain, ByToken, ActiveAt, InFlight;
    var t0, st0 := FirstSubscribed(c, first, secret);
    s := st0.reg.subs[c];
    var t1, st1 := LookUp(t0, st0, first, s);
    var t2, st2 := Replace(t1, st1, c, second, secret);
    var st3;
    t, st3 := ActivationEnds(t2, st2, s);
    j, k := |t0.steps|, |t2.steps|;
    assert t.states[k] == t2.states[k] == st2 && t.states[k + 1] == st3;
    hide IsRun;
    InFlightIs(t0, t1, st0, t, first, s);
  }

  /** The subscription is verified, and that is saved; then its lease runs out. */
  lemma VerifyAndWait(t: Trace, st: State, c: string, s: Sub) returns (u: Trace, end: State)
    requires EndsAt(t, st) && s in st.verifies && st.reg.subs.Keys == {c} && st.reg.subs[c] == s && s.channelId == c
    requires st.env.cfgLease == 60 && st.env.now == 1 && st.renew.RIdle?
    ensures EndsAt(u, end) && end.saved == end.reg.subs && end.reg.subs.Keys == {c}
    ensures ActiveIn(end.saved, c) && end.saved[c].expiresAt == end.env.now == 61 && end.renew.RIdle?
  {
    hide EndsAt, Asking, Genuine;
    AskingIsGenuine(s);
    var a, mid := VerifyActivate(s, Asking(s), true), st;
    EndIndexed(t, st);
    UpdateInPlace(st.reg, Verified(s, RequestedLease(a.q, 60), 60, 1));
    LeaseAsked(s);
    u, mid := Then(t, st, a);
    assert mid.reg.subs == st.reg.subs[c := Verified(s, 60, 60, 1)];
    u, end := Then(u, mid, Tick(61));
    hide UpdateReg, Indexed;
  }

  lemma LeaseAsked(s: Sub)
    ensures RequestedLease(Asking(s), 60) == 60 && GrantedLease(60, 60) == 60 && SatAdd(1, 60) == 61
  {
  }

  lemma EndLength(t: Trace, st: State)
    requires EndsAt(t, st)
    ensures |t.states| == |t.steps| + 1 && t.states[|t.steps|] == st && IsRun(t.states, t.steps)
  {
    hide IsRun;
  }

  /** A pass demotes the lapsed subscription, and its save fails. */
  lemma Lapse(t: Trace, st: State, c: string) returns (u: Trace, before: State, end: State)
    requires EndsAt(t, st) && st.renew.RIdle? && ActiveAt(st.reg, c) && LeaseExpired(st.reg.subs[c], st.env.now)
    ensures EndsAt(u, end) && |u.steps| == |t.steps| + 2 && u.steps[|t.steps| + 1] == RenewExpire(false)
    ensures |u.states| == |t.steps| + 3 && u.states[|t.steps| + 1] == before
    ensures ActiveAt(before.reg, c) && !ActiveAt(end.reg, c)
    ensures end.saved == st.saved && end.env == st.env
  {
    hide EndsAt;
    EndLength(t, st);
    var started;
    started, before := Then(t, st, RenewStart);
    u, end := Then(started, before, RenewExpire(false));
  }

  lemma RestartEnds(t: Trace, st: State, c: string) returns (u: Trace, end: State)
    requires EndsAt(t, st) && st.saved.Keys == {c} && ActiveIn(st.saved, c)
    ensures EndsAt(u, end) && u == Trace(t.states + [end], t.steps + [Restart([c])])
    ensures ActiveAt(end.reg, c) && end.reg.subs[c].expiresAt == st.saved[c].expiresAt && end.env == st.env
  {
    EndLength(t, st);
    RunInv(t.states, t.steps, |t.steps|);
    hide EndsAt, IsRun, Inv, Reloaded;
    var a := Restart([c]);
    u, end := Then(t, st, a);
    RestartEffect(st, a);
    assert end.reg.subs[c] == Clamped(st.saved[c]);
  }

  lemma SameActive(st: State, c: string)
    requires st.saved == st.reg.subs
    ensures ActiveIn(st.saved, c) <==> ActiveAt(st.reg, c)
  {
  }

  /**
   * A lapse whose save failed is forgotten by a restart: the program reaches, for any channel and
   * token, a restart that makes a lapsed subscription active again, with no verification in between.
   */
  lemma LapseForgotten(c: string, token: string, secret: string) returns (t: Trace, k: nat)
    requires Plain(c) && Plain(token) && Plain(secret)
    ensures IsRun(t.states, t.steps) && 1 <= k < |t.steps|
    ensures ActiveAt(t.states[k - 1].reg, c) && t.steps[k - 1] == RenewExpire(false)
    ensures !ActiveAt(t.states[k].reg, c) && t.steps[k].Restart?
    ensures ActiveAt(t.states[k + 1].reg, c) && LeaseExpired(t.states[k + 1].reg.subs[c], t.states[k + 1].env.now)
  {
    var t0, st0 := FirstSubscribed(c, token, secret);
    hide Plain, ByToken, EndsAt, IsRun, ActiveAt;
    var s := st0.reg.subs[c];
    var t1, st1 := LookUp(t0, st0, token, s);
    var t2, st2 := VerifyAndWait(t1, st1, c, s);
    SameActive(st2, c);
    var t3, st3, st4 := Lapse(t2, st2, c);
    var st5;
    t, st5 := RestartEnds(t3, st4, c);
    k := |t3.steps|;
    EndLength(t2, st2);
    EndLength(t3, st4);
    EndLength(t, st5);
    assert t.states[k - 1] == t3.states[k - 1] == st3 && t.states[k] == st4 && t.states[k + 1] == st5;
    assert t.steps[k - 1] == t3.steps[k - 1];
  }
}

/** What holds over every interleaving of the protocol's steps. */
module ProtocolTheorems {
  import opened Base
  import opened Lifecycle
  import opened Protocol
  import opened ProtocolSteps
  import opened SubsSpec

  /** `states[k + 1]` is what `steps[k]` makes of `states[k]`, from a first start. */
  ghost predicate IsRun(states: seq<State>, steps: seq<Step>) {
    && |states| == |steps| + 1
    && Init(states[0])
    && forall k :: 0 <= k < |steps| ==> Enabled(states[k], steps[k]) && states[k + 1] == Next(states[k], steps[k])
  }

  lemma RunStep(states: seq<State>, steps: seq<Step>, k: nat)
    requires IsRun(states, steps) && k < |steps|
    ensures |states| == |steps| + 1
    ensures Enabled(states[k], steps[k]) && states[k + 1] == Next(states[k], steps[k])
  {
    hide Init, Enabled, Next;
  }

  lemma {:induction false} RunInv(states: seq<State>, steps: seq<Step>, k: nat)
    requires IsRun(states, steps) && k < |states|
    ensures Inv(states[k])
  {
    hide Inv, Next, Enabled;
    if k == 0 {
      InitInv(states[0]);
    } else {
      RunInv(states, steps, k - 1);
      StepKeepsInv(states[k - 1], steps[k - 1]);
    }
  }

  // ---- activation ---------------------------------------------------------

  predicate ActiveAt(r: Reg, c: string) { c in r.subs && Active(r.subs[c]) }

  /** What a merge does to any channel's record. */
  lemma MergeEffect(r: Reg, s: Sub, c: string)
    requires Indexed(r)
    requires Active(s) && Mergeable(r, s) ==> Active(r.subs[s.channelId])
    ensures ActiveAt(MergeReg(r, s), c) <==> ActiveAt(r, c)
    ensures ActiveAt(r, c) ==>
      && MergeReg(r, s).subs[c].expiresAt == r.subs[c].expiresAt
      && MergeReg(r, s).subs[c].leaseSeconds == r.subs[c].leaseSeconds
  {
    if Mergeable(r, s) {
      UpdateInPlace(r, Merged(r.subs[s.channelId], s));
    }
    hide UpdateReg;
  }

  /**
   * Stale write-backs: a snapshot taken before the request was sent, written back by either thread,
   * never demotes a verified subscription, never revives a lapsed one, and never replaces the expiry
   * a verification set in between.
   */
  lemma MergeNeverOverrides(states: seq<State>, steps: seq<Step>, k: nat, c: string)
    requires IsRun(states, steps) && k < |steps| && (steps[k].RenewMerge? || steps[k].ReconMerge?)
    ensures var before, after := states[k].reg, states[k + 1].reg;
      && (ActiveAt(after, c) <==> ActiveAt(before, c))
      && (ActiveAt(before, c) ==>
            && after.subs[c].expiresAt == before.subs[c].expiresAt
            && after.subs[c].leaseSeconds == before.subs[c].leaseSeconds)
  {
    RunInv(states, steps, k);
    MergeStepEffect(states[k], steps[k], c);
  }

  lemma MergeStepEffect(st: State, a: Step, c: string)
    requires Inv(st) && Enabled(st, a) && (a.RenewMerge? || a.ReconMerge?)
    ensures var before, after := st.reg, Next(st, a).reg;
      && (ActiveAt(after, c) <==> ActiveAt(before, c))
      && (ActiveAt(before, c) ==>
            && after.subs[c].expiresAt == before.subs[c].expiresAt
            && after.subs[c].leaseSeconds == before.subs[c].leaseSeconds)
  {
    var s := if a.RenewMerge? then st.renew.s else st.recon.s;
    assert a.RenewMerge? ==> s in RenewSubs(st.renew);
    assert a.ReconMerge? ==> s in ReconSubs(st.recon);
    MergeEffect(st.reg, s, c);
    hide MergeReg, Active;
  }

  lemma ActivateEffect(st: State, s: Sub, requested: U64, ok: bool, c: string)
    requires Indexed(st.reg)
    ensures var after := Activated(st, s, requested, ok).reg;
      && after.subs.Keys == st.reg.subs.Keys
      && (c in st.reg.subs && c != s.channelId ==> after.subs[c] == st.reg.subs[c])
      && (s.channelId in st.reg.subs ==>
            && ActiveAt(after, s.channelId)
            && after.subs[s.channelId].token == st.reg.subs[s.channelId].token
            && after.subs[s.channelId].secret == st.reg.subs[s.channelId].secret)
  {
    if s.channelId in st.reg.subs {
      UpdateInPlace(st.reg, Verified(st.reg.subs[s.channelId], requested, st.env.cfgLease, st.env.now));
    }
    hide UpdateReg, GrantedLease;
  }

  /** Steps that leave every subscription as it is. */
  predicate Quiet(a: Step) {
    !a.VerifyActivate? && !a.RenewMerge? && !a.ReconMerge? && !a.ReconInsert? && !a.RenewExpire?
    && !a.ReconRemove? && !a.Restart?
  }

  lemma QuietStep(st: State, a: Step)
    requires Enabled(st, a) && Quiet(a)
    ensures Next(st, a).reg.subs == st.reg.subs
  {
    hide Candidates, Attempted, FirstVerdict, PlanFor, ByToken, Reloaded;
  }

  lemma ExpireEffect(st: State, ok: bool, c: string)
    requires st.renew.RStarted?
    ensures var after := Expiring(st, ok).reg;
      && after.subs.Keys == st.reg.subs.Keys
      && (ActiveAt(after, c) ==> ActiveAt(st.reg, c))
      && (ActiveAt(st.reg, c) && !ActiveAt(after, c) ==> LeaseExpired(st.reg.subs[c], st.renew.t))
  {
  }

  predicate ActiveIn(subs: map<string, Sub>, c: string) { c in subs && Active(subs[c]) }

  /** The only ways into and out of `active`, for one step. */
  ghost predicate Disciplined(st: State, a: Step, c: string)
    requires Enabled(st, a)
  {
    var after := Next(st, a).reg;
    && (ActiveAt(after, c) && !ActiveAt(st.reg, c) ==>
          || (a.VerifyActivate? && a.s.channelId == c)
          || (a.Restart? && ActiveIn(st.saved, c)))
    && (ActiveAt(st.reg, c) && !ActiveAt(after, c) ==>
          || (a.RenewExpire? && LeaseExpired(st.reg.subs[c], st.renew.t))
          || (a.ReconRemove? && a.channelId == c)
          || (a.Restart? && !ActiveIn(st.saved, c)))
  }

  /** A restart replaces the registry by what was saved last. */
  lemma RestartEffect(st: State, a: Step)
    requires Inv(st) && Enabled(st, a) && a.Restart?
    ensures Next(st, a).reg.subs == ClampAll(st.saved) && Next(st, a).reg.unsub == map[]
    ensures Next(st, a).saved == st.saved && Next(st, a).env == st.env
  {
    SavedIsGood(st);
    ReloadedIs(st.env, st.saved, a.order);
    hide Inv, Reloaded, RegOf, ClampAll;
  }

  lemma ClampKeepsActive(m: map<string, Sub>, c: string)
    ensures ActiveIn(ClampAll(m), c) <==> ActiveIn(m, c)
  {
  }

  lemma RestartDisciplined(st: State, a: Step, c: string)
    requires Inv(st) && Enabled(st, a) && a.Restart?
    ensures Disciplined(st, a, c)
    ensures ActiveAt(Next(st, a).reg, c) <==> ActiveIn(st.saved, c)
  {
    RestartEffect(st, a);
    ClampKeepsActive(st.saved, c);
    hide Inv, Next, Enabled, ClampAll, Active, LeaseExpired;
  }

  lemma VerifyDisciplined(st: State, a: Step, c: string)
    requires Inv(st) && Enabled(st, a) && a.VerifyActivate?
    ensures Disciplined(st, a, c)
  {
    ActivateEffect(st, a.s, RequestedLease(a.q, st.env.cfgLease), a.ok, c);
    hide Activated, Active, LeaseExpired, Inv, Genuine;
  }

  lemma InsertEffect(st: State, token: string, secret: string, c: string)
    requires st.recon.CPlanned? && st.recon.plan.adds != [] && st.recon.plan.adds[0] !in st.reg.subs
    ensures ActiveAt(Inserted(st, token, secret).reg, c) <==> ActiveAt(st.reg, c)
  {
    FirstSubPending(st, token, secret);
    hide Active, FirstSub;
  }

  lemma InsertDisciplined(st: State, a: Step, c: string)
    requires Inv(st) && Enabled(st, a) && a.ReconInsert?
    ensures Disciplined(st, a, c)
  {
    InsertStep(st, a.token, a.secret);
    InsertEffect(st, a.token, a.secret, c);
    hide Inserted, ActiveAt, Active, LeaseExpired, Inv;
  }

  lemma ExpireDisciplined(st: State, a: Step, c: string)
    requires Enabled(st, a) && a.RenewExpire?
    ensures Disciplined(st, a, c)
  {
    ExpireEffect(st, a.ok, c);
    hide Expiring, ActiveAt, LeaseExpired;
  }

  lemma RemoveDisciplined(st: State, a: Step, c: string)
    requires Enabled(st, a) && a.ReconRemove?
    ensures Disciplined(st, a, c)
  {
    hide Active, LeaseExpired;
  }

  lemma MergeDisciplined(st: State, a: Step, c: string)
    requires Inv(st) && Enabled(st, a) && (a.RenewMerge? || a.ReconMerge?)
    ensures Disciplined(st, a, c)
  {
    MergeStepEffect(st, a, c);
    hide Inv, Enabled, Next, ActiveAt, LeaseExpired;
  }

  lemma QuietDisciplined(st: State, a: Step, c: string)
    requires Enabled(st, a) && Quiet(a)
    ensures Disciplined(st, a, c)
  {
    QuietStep(st, a);
    hide Enabled, Next, Active, LeaseExpired;
  }

  lemma ActivationStep(st: State, a: Step, c: string)
    requires Inv(st) && Enabled(st, a)
    ensures Disciplined(st, a, c)
  {
    hide Inv, Enabled, Disciplined;
    if a.VerifyActivate? {
      VerifyDisciplined(st, a, c);
    } else if a.ReconInsert? {
      InsertDisciplined(st, a, c);
    } else if a.RenewExpire? {
      ExpireDisciplined(st, a, c);
    } else if a.ReconRemove? {
      RemoveDisciplined(st, a, c);
    } else if a.RenewMerge? || a.ReconMerge? {
      MergeDisciplined(st, a, c);
    } else if a.Restart? {
      RestartDisciplined(st, a, c);
    } else {
      QuietDisciplined(st, a, c);
    }
  }

  /** The hub asks for this very subscription, with a challenge, and with its token or none. */
  predicate MatchesRequest(s: Sub, q: Request) {
    && q.mode == "subscribe" && q.topic == s.topic && q.challenge != ""
    && (q.verifyToken == "" || q.verifyToken == s.token)
  }

  lemma VerifyMatches(st: State, a: Step)
    requires Enabled(st, a) && a.VerifyActivate?
    ensures MatchesRequest(a.s, a.q)
  {
  }

  /**
   * In every interleaving a subscription becomes active only through a verification request for its
   * channel, or by a restart that loads it as active; and it stops being active only when its lease
   * has run out, a reconcile removes it, or a restart loads it as something else.
   */
  lemma ActivationDiscipline(states: seq<State>, steps: seq<Step>, k: nat, c: string)
    requires IsRun(states, steps) && k < |steps|
    ensures ActiveAt(states[k + 1].reg, c) && !ActiveAt(states[k].reg, c) ==>
      || (steps[k].VerifyActivate? && steps[k].s.channelId == c && MatchesRequest(steps[k].s, steps[k].q))
      || (steps[k].Restart? && ActiveIn(states[k].saved, c))
    ensures ActiveAt(states[k].reg, c) && !ActiveAt(states[k + 1].reg, c) ==>
      || (steps[k].RenewExpire? && LeaseExpired(states[k].reg.subs[c], states[k].env.now))
      || (steps[k].ReconRemove? && steps[k].channelId == c)
      || (steps[k].Restart? && !ActiveIn(states[k].saved, c))
  {
    RunInv(states, steps, k);
    ActivationStep(states[k], steps[k], c);
    PassTimeIsPast(states, steps, k);
    if steps[k].VerifyActivate? {
      VerifyMatches(states[k], steps[k]);
    }
    assert steps[k].RenewExpire? ==> states[k].renew.RStarted?;
    hide Inv, Next, Enabled, ActiveAt, ActiveIn;
  }

  /**
   * Across a restart a channel is active exactly when its saved record was, and then it was verified
   * at some earlier step; nothing changes if the last changes had been saved.
   */
  lemma RestartActivity(states: seq<State>, steps: seq<Step>, k: nat, c: string) returns (j: nat)
    requires IsRun(states, steps) && k < |steps| && steps[k].Restart?
    ensures ActiveAt(states[k + 1].reg, c) <==> ActiveIn(states[k].saved, c)
    ensures states[k].saved == states[k].reg.subs ==> (ActiveAt(states[k + 1].reg, c) <==> ActiveAt(states[k].reg, c))
    ensures ActiveAt(states[k + 1].reg, c) ==>
      j < k && steps[j].VerifyActivate? && steps[j].s.channelId == c && c in states[j].reg.subs
  {
    hide *;
    j := 0;
    RestartLoads(states, steps, k, c);
    if ActiveAt(states[k + 1].reg, c) {
      RunInv(states, steps, k + 1);
      ActiveIsVerified(states[k + 1], c);
      j := VerifiedBefore(states, steps, k, c);
    }
  }

  lemma RestartLoads(states: seq<State>, steps: seq<Step>, k: nat, c: string)
    requires IsRun(states, steps) && k < |steps| && steps[k].Restart?
    ensures k + 1 < |states|
    ensures ActiveAt(states[k + 1].reg, c) <==> ActiveIn(states[k].saved, c)
    ensures states[k].saved == states[k].reg.subs ==> (ActiveIn(states[k].saved, c) <==> ActiveAt(states[k].reg, c))
  {
    RunInv(states, steps, k);
    RunStep(states, steps, k);
    hide IsRun, Next, Enabled, Inv, Disciplined, Active;
    RestartDisciplined(states[k], steps[k], c);
  }

  lemma VerifiedBefore(states: seq<State>, steps: seq<Step>, k: nat, c: string) returns (j: nat)
    requires IsRun(states, steps) && k < |steps| && steps[k].Restart? && k + 1 < |states|
    requires c in states[k + 1].env.verified
    ensures j < k && steps[j].VerifyActivate? && steps[j].s.channelId == c && c in states[j].reg.subs
  {
    hide *;
    j := VerifiedIsReal(states, steps, k + 1, c);
  }

  /** The save that a step makes, if it makes one, succeeds. */
  predicate Saves(a: Step) {
    match a
    case VerifyActivate(_, _, ok) => ok
    case RenewExpire(ok) => ok
    case RenewMerge(ok) => ok
    case ReconMerge(ok) => ok
    case ReconFinish(ok) => ok
    case _ => true
  }

  /** Between reconciles the file holds the registry, errors cut to the kept length. */
  ghost predicate Current(st: State) {
    st.recon.CIdle? ==> ClampAll(st.saved) == ClampAll(st.reg.subs)
  }

  lemma ClampTwice(m: map<string, Sub>)
    ensures ClampAll(ClampAll(m)) == ClampAll(m)
  {
    forall c | c in m ensures Clamped(Clamped(m[c])) == Clamped(m[c]) {
      assert Take(Take(m[c].lastError, MAX_ERR), MAX_ERR) == Take(m[c].lastError, MAX_ERR);
    }
    hide Clamped;
  }

  lemma ExpireSaves(st: State, ok: bool)
    requires st.renew.RStarted? && Current(st) && ok
    ensures Current(Expiring(st, ok))
  {
    hide ClampAll, ExpireReg;
  }

  lemma MergeSaves(st: State, a: Step)
    requires Enabled(st, a) && (a.RenewMerge? || a.ReconMerge?) && Current(st) && Saves(a)
    ensures Current(Next(st, a))
  {
    hide ClampAll, UpdateReg, Mergeable, Merged;
  }

  lemma QuietSaves(st: State, a: Step)
    requires Enabled(st, a) && Quiet(a) && !a.ReconFinish? && Current(st)
    ensures Current(Next(st, a))
  {
    QuietStep(st, a);
    hide ClampAll, Candidates, Attempted, FirstVerdict, PlanFor, ByToken;
  }

  lemma VerifySaves(st: State, a: Step)
    requires Enabled(st, a) && a.VerifyActivate? && Current(st) && Saves(a)
    ensures Current(Next(st, a))
  {
    hide ClampAll, ActivateReg, Genuine;
  }

  lemma StepSaves(st: State, a: Step)
    requires Inv(st) && Enabled(st, a) && Current(st) && Saves(a)
    ensures Current(Next(st, a))
  {
    if a.Restart? {
      RestartEffect(st, a);
      ClampTwice(st.saved);
      hide Inv, Enabled, Next, ClampAll;
    } else if a.RenewExpire? {
      ExpireSaves(st, a.ok);
      hide Inv, Expiring, Current;
    } else if a.VerifyActivate? {
      VerifySaves(st, a);
      hide *;
    } else if a.RenewMerge? || a.ReconMerge? {
      MergeSaves(st, a);
      hide *;
    } else if Quiet(a) && !a.ReconFinish? {
      QuietSaves(st, a);
      hide *;
    } else {
      hide Inv, ClampAll;
    }
  }

  /** While every save succeeds, the file is current between reconciles. */
  lemma {:induction false} SavedIsCurrent(states: seq<State>, steps: seq<Step>, k: nat)
    requires IsRun(states, steps) && k < |states| && forall m :: 0 <= m < k ==> Saves(steps[m])
    ensures Current(states[k])
  {
    hide Inv, Enabled, Next, Current, Saves;
    if k == 0 {
      FirstIsCurrent(states[0]);
    } else {
      RunInv(states, steps, k - 1);
      SavedIsCurrent(states, steps, k - 1);
      StepSaves(states[k - 1], steps[k - 1]);
    }
  }

  lemma FirstIsCurrent(st: State)
    requires Init(st)
    ensures Current(st)
  {
  }

  /**
   * If every save so far succeeded and no reconcile is in progress, a restart changes no record beyond
   * the cut of its error.
   */
  lemma RestartKeepsRecords(states: seq<State>, steps: seq<Step>, k: nat)
    requires IsRun(states, steps) && k < |steps| && steps[k].Restart?
    requires states[k].recon.CIdle? && forall m :: 0 <= m < k ==> Saves(steps[m])
    ensures states[k + 1].reg.subs == ClampAll(states[k].reg.subs)
  {
    RunInv(states, steps, k);
    RunStep(states, steps, k);
    SavedIsCurrent(states, steps, k);
    hide IsRun, Inv, Enabled, Next, ClampAll;
    RestartEffect(states[k], steps[k]);
  }

  lemma ActiveIsVerified(st: State, c: string)
    requires Inv(st) && ActiveAt(st.reg, c)
    ensures c in st.env.verified
  {
    assert Good(st.env, st.reg.subs[c]);
  }

  /** The time a renew pass took at its start is never ahead of the clock. */
  lemma {:induction false} PassTimeIsPast(states: seq<State>, steps: seq<Step>, k: nat)
    requires IsRun(states, steps) && k < |states|
    ensures var r := states[k].renew; (r.RStarted? || r.RExpired?) ==> r.t <= states[k].env.now
  {
    if k > 0 {
      PassTimeIsPast(states, steps, k - 1);
      hide Inserted, Activated, RenewMerged, ReconMerged, Removed;
      PassTimeStep(states[k - 1], steps[k - 1]);
    }
  }

  lemma PassTimeStep(st: State, a: Step)
    requires Enabled(st, a)
    requires (st.renew.RStarted? || st.renew.RExpired?) ==> st.renew.t <= st.env.now
    ensures var q := Next(st, a); (q.renew.RStarted? || q.renew.RExpired?) ==> q.renew.t <= q.env.now
    ensures Next(st, a).env.now >= st.env.now && Next(st, a).env.cfgLease == st.env.cfgLease
  {
    hide Reloaded;
  }

  // ---- nobody is stranded -------------------------------------------------

  /** Every registered record has a state the renew pass knows, and a next attempt that is not far off. */
  lemma NeverStranded(states: seq<State>, steps: seq<Step>, k: nat, c: string)
    requires IsRun(states, steps) && k < |states| && c in states[k].reg.subs
    ensures var s, now := states[k].reg.subs[c], states[k].env.now;
      && IsState(s.state)
      && (Active(s) ==> s.expiresAt > 0)
      && s.nextAttemptAt <= now + 2250
      && s.lastSubscribeAt <= now
  {
    RunInv(states, steps, k);
    assert Good(states[k].env, states[k].reg.subs[c]);
    hide Next, Enabled;
  }

  lemma RegisteredIsGood(st: State, c: string)
    requires Inv(st) && c in st.reg.subs
    ensures Good(st.env, st.reg.subs[c]) && Healthy(st.env, st.reg.subs[c])
  {
  }

  lemma LapsedIsDue(e: Env, s: Sub, t: nat)
    requires Healthy(e, s)
    requires s.nextAttemptAt <= t && s.lastSubscribeAt + PENDING_TIMEOUT < t && s.expiresAt <= t
    ensures Due(s, t)
  {
  }

  lemma SnapshotIs(st: State, a: Step, c: string)
    requires Enabled(st, a) && a.RenewSnapshot? && c in st.reg.subs
    ensures Next(st, a).renew.RPass?
    ensures st.reg.subs[c] in Next(st, a).renew.todo <==> Due(st.reg.subs[c], st.renew.t)
  {
    hide Due;
  }

  /** A pass that started at `t` takes up every subscription whose waits and lease are over by `t`. */
  lemma LapsedIsSelected(states: seq<State>, steps: seq<Step>, k: nat, c: string)
    requires IsRun(states, steps) && k < |steps| && steps[k].RenewSnapshot?
    requires Enabled(states[k], steps[k]) && c in states[k].reg.subs
    requires var s, t := states[k].reg.subs[c], states[k].renew.t;
      s.nextAttemptAt <= t && s.lastSubscribeAt + PENDING_TIMEOUT < t && s.expiresAt <= t
    ensures states[k + 1].renew.RPass? && states[k].reg.subs[c] in states[k + 1].renew.todo
  {
    RunInv(states, steps, k);
    RegisteredIsGood(states[k], c);
    hide Good, Inv, Next, Enabled, Init;
    LapsedIsDue(states[k].env, states[k].reg.subs[c], states[k].renew.t);
    hide Due;
    SnapshotIs(states[k], steps[k], c);
  }

  /** What the filter of a pass does to a record in each state. */
  lemma DueMeaning(s: Sub, t: nat)
    ensures Due(s, t) ==> s.nextAttemptAt <= t
    ensures s.nextAttemptAt <= t && s.state == "active" ==> (Due(s, t) <==> 0 < s.expiresAt <= t + 86400)
    ensures s.nextAttemptAt <= t && s.state == "pending" ==> (Due(s, t) <==> s.lastSubscribeAt + 600 < t)
    ensures s.nextAttemptAt <= t && (s.state == "failed" || s.state == "expired") ==> Due(s, t)
  {
  }

  /**
   * Which records a pass that started at `t` takes up: none before its next attempt; then an active one
   * exactly when at most a day of its lease is left, a pending one exactly when it was asked for more
   * than 600 s ago, and every failed and every lapsed one.
   */
  lemma SelectedIff(states: seq<State>, steps: seq<Step>, k: nat, c: string)
    requires IsRun(states, steps) && k < |steps| && steps[k].RenewSnapshot? && c in states[k].reg.subs
    ensures states[k].renew.RExpired? && states[k + 1].renew.RPass?
    ensures var s, t, taken := states[k].reg.subs[c], states[k].renew.t, states[k + 1].renew.todo;
      && (s in taken ==> s.nextAttemptAt <= t)
      && (s.nextAttemptAt <= t ==>
            && (s.state == "active" ==> (s in taken <==> s.expiresAt <= t + 86400))
            && (s.state == "pending" ==> (s in taken <==> s.lastSubscribeAt + 600 < t))
            && (s.state == "failed" || s.state == "expired" ==> s in taken))
  {
    hide *;
    RunStep(states, steps, k);
    RunInv(states, steps, k);
    StepSelects(states[k], steps[k], c);
  }

  lemma StepSelects(st: State, a: Step, c: string)
    requires Inv(st) && Enabled(st, a) && a.RenewSnapshot? && c in st.reg.subs
    ensures st.renew.RExpired? && Next(st, a).renew.RPass?
    ensures var s, t, taken := st.reg.subs[c], st.renew.t, Next(st, a).renew.todo;
      && (s in taken ==> s.nextAttemptAt <= t)
      && (s.nextAttemptAt <= t ==>
            && (s.state == "active" ==> (s in taken <==> s.expiresAt <= t + 86400))
            && (s.state == "pending" ==> (s in taken <==> s.lastSubscribeAt + 600 < t))
            && (s.state == "failed" || s.state == "expired" ==> s in taken))
  {
    RegisteredIsGood(st, c);
    SnapshotIs(st, a, c);
    DueMeaning(st.reg.subs[c], st.renew.t);
    hide Inv, Good, Due, Next;
  }

  /**
   * No lease runs out unattended: a record seen active with a day of its lease ahead, and left alone,
   * is taken up while it is still delivering by the first pass that starts in its last day and after the
   * longest backoff, if passes are at most 84150 s apart (23 hours, 22 minutes and 30 seconds).
   */
  lemma RenewedInTime(states: seq<State>, steps: seq<Step>, j: nat, k: nat, c: string, before: nat)
    requires IsRun(states, steps) && j <= k < |steps| && steps[k].RenewSnapshot?
    requires c in states[j].reg.subs && c in states[k].reg.subs && states[k].reg.subs[c] == states[j].reg.subs[c]
    requires states[k].renew.RExpired?
    requires var s, now, t := states[j].reg.subs[c], states[j].env.now, states[k].renew.t;
      && s.state == "active" && now + 86400 <= s.expiresAt
      && (before + 86400 < s.expiresAt || before < now + 2250)
      && before <= t <= before + 84150
      && s.expiresAt <= t + 86400 && now + 2250 <= t
    ensures states[k + 1].renew.RPass? && states[k].reg.subs[c] in states[k + 1].renew.todo
    ensures Live(states[k].reg.subs[c], states[k].renew.t) && states[k].renew.t < states[k].reg.subs[c].expiresAt
  {
    RunInv(states, steps, j);
    RegisteredIsGood(states[j], c);
    hide IsRun, Inv, Good;
    SelectedIff(states, steps, k, c);
  }

  lemma DeadIsDue(e: Env, s: Sub, t: nat)
    requires Healthy(e, s) && !Live(s, t) && t >= e.now + MAX_BACKOFF
    ensures Due(s, t) && Due(Expired(s, t), t)
  {
  }

  /**
   * Nothing that stopped delivering waits longer than the longest backoff: a record seen at one
   * moment and otherwise left alone is taken up by every pass that starts that much later, if it is
   * not delivering then.
   */
  lemma DeadIsRetried(states: seq<State>, steps: seq<Step>, j: nat, k: nat, c: string)
    requires IsRun(states, steps) && j <= k < |steps| && steps[k].RenewSnapshot?
    requires Enabled(states[k], steps[k]) && c in states[j].reg.subs && c in states[k].reg.subs
    requires var s, t := states[j].reg.subs[c], states[k].renew.t;
      && (states[k].reg.subs[c] == s || states[k].reg.subs[c] == Expired(s, t))
      && !Live(s, t) && t >= states[j].env.now + 2250
    ensures states[k + 1].renew.RPass? && states[k].reg.subs[c] in states[k + 1].renew.todo
  {
    RunInv(states, steps, j);
    RegisteredIsGood(states[j], c);
    hide Good, Inv, Next, Enabled, Init;
    DeadIsDue(states[j].env, states[j].reg.subs[c], states[k].renew.t);
    hide Due, Expired;
    SnapshotIs(states[k], steps[k], c);
  }

  // ---- leases -------------------------------------------------------------

  /** The bookkeeping of the last verification is about real verification steps. */
  lemma {:induction false} VerifiedIsReal(states: seq<State>, steps: seq<Step>, k: nat, c: string) returns (j: nat)
    requires IsRun(states, steps) && k < |states| && c in states[k].env.verified
    ensures j < k && j < |steps| && steps[j].VerifyActivate? && steps[j].s.channelId == c
    ensures c in states[j].reg.subs && states[k].env.verified[c] == states[j].env.now
  {
    hide Enabled, Next;
    var st, a := states[k - 1], steps[k - 1];
    if a.VerifyActivate? && a.s.channelId == c && c in st.reg.subs {
      j := k - 1;
      VerifiedNow(st, a, c);
    } else {
      VerifiedKept(st, a, c);
      j := VerifiedIsReal(states, steps, k - 1, c);
    }
  }

  lemma VerifiedNow(st: State, a: Step, c: string)
    requires Enabled(st, a) && a.VerifyActivate? && a.s.channelId == c && c in st.reg.subs
    ensures c in Next(st, a).env.verified && Next(st, a).env.verified[c] == st.env.now
  {
  }

  lemma VerifiedKept(st: State, a: Step, c: string)
    requires Enabled(st, a) && c in Next(st, a).env.verified
    requires !(a.VerifyActivate? && a.s.channelId == c && c in st.reg.subs)
    ensures c in st.env.verified && Next(st, a).env.verified[c] == st.env.verified[c]
  {
    hide Reloaded;
  }

  lemma {:induction false} ConfigIsConstant(states: seq<State>, steps: seq<Step>, j: nat, k: nat)
    requires IsRun(states, steps) && j <= k < |states|
    ensures states[k].env.cfgLease == states[j].env.cfgLease
    ensures states[j].env.now <= states[k].env.now
    decreases k
  {
    hide Next, Enabled, Init;
    if j < k {
      ConfigIsConstant(states, steps, j, k - 1);
      EnvStep(states[k - 1], steps[k - 1]);
    }
  }

  lemma EnvStep(st: State, a: Step)
    requires Enabled(st, a)
    ensures Next(st, a).env.cfgLease == st.env.cfgLease && st.env.now <= Next(st, a).env.now
  {
    hide Reloaded;
  }

  // ---- where an expiry comes from -----------------------------------------

  /** Some step verified the registered channel, and the expiry is within the lease that its request named. */
  ghost predicate Granted(states: seq<State>, steps: seq<Step>, k: nat, c: string, expires: nat) {
    exists j :: 0 <= j < k && j < |steps| && j < |states| && GrantedAt(states[j], steps[j], c, expires)
  }

  predicate GrantedAt(st: State, a: Step, c: string, expires: nat) {
    && a.VerifyActivate? && a.s.channelId == c && c in st.reg.subs
    && (a.q.lease.Some? ==> expires <= st.env.now + a.q.lease.value)
    && (a.q.lease.None? ==> expires <= st.env.now + st.env.cfgLease)
    && expires <= st.env.now + Max(st.env.cfgLease, 1)
  }

  predicate ActiveUntil(subs: map<string, Sub>, c: string, expires: nat) {
    c in subs && Active(subs[c]) && subs[c].expiresAt == expires
  }

  /** An active record after a step was active with the same expiry before it, or in the file, or was just verified. */
  ghost predicate Traced(st: State, a: Step, c: string)
    requires Enabled(st, a)
  {
    var q := Next(st, a).reg;
    ActiveAt(q, c) ==>
      var x := q.subs[c].expiresAt;
      ActiveUntil(st.reg.subs, c, x) || ActiveUntil(st.saved, c, x) || GrantedAt(st, a, c, x)
  }

  lemma VerifyTraced(st: State, a: Step, c: string)
    requires Inv(st) && Enabled(st, a) && a.VerifyActivate?
    ensures Traced(st, a, c)
  {
    var d, lease := a.s.channelId, RequestedLease(a.q, st.env.cfgLease);
    if d in st.reg.subs {
      UpdateInPlace(st.reg, Verified(st.reg.subs[d], lease, st.env.cfgLease, st.env.now));
    }
    hide UpdateReg, Genuine;
  }

  lemma ExpireTraced(st: State, a: Step, c: string)
    requires Enabled(st, a) && a.RenewExpire?
    ensures Traced(st, a, c)
  {
    ExpireEffect(st, a.ok, c);
    hide LeaseExpired;
  }

  lemma RestartTraced(st: State, a: Step, c: string)
    requires Inv(st) && Enabled(st, a) && a.Restart?
    ensures Traced(st, a, c)
  {
    RestartEffect(st, a);
    ClampKeepsActive(st.saved, c);
    hide Inv, Next, Enabled, Active, ClampError;
  }

  lemma MergeTraced(st: State, a: Step, c: string)
    requires Inv(st) && Enabled(st, a) && (a.RenewMerge? || a.ReconMerge?)
    ensures Traced(st, a, c)
  {
    MergeStepEffect(st, a, c);
    hide Inv, Enabled, Next, Active;
  }

  lemma InsertTraced(st: State, a: Step, c: string)
    requires Inv(st) && Enabled(st, a) && a.ReconInsert?
    ensures Traced(st, a, c)
  {
    FirstSubPending(st, a.token, a.secret);
    hide Active, FirstSub, Inv;
  }

  lemma OtherTraced(st: State, a: Step, c: string)
    requires Enabled(st, a) && (Quiet(a) || a.ReconRemove?)
    ensures Traced(st, a, c)
  {
    if Quiet(a) {
      QuietStep(st, a);
      hide Enabled, Next, Active;
    }
    hide Active;
  }

  lemma StepTraced(st: State, a: Step, c: string)
    requires Inv(st) && Enabled(st, a)
    ensures Traced(st, a, c)
  {
    hide Inv, Enabled, Traced;
    if a.VerifyActivate? {
      VerifyTraced(st, a, c);
    } else if a.RenewExpire? {
      ExpireTraced(st, a, c);
    } else if a.Restart? {
      RestartTraced(st, a, c);
    } else if a.RenewMerge? || a.ReconMerge? {
      MergeTraced(st, a, c);
    } else if a.ReconInsert? {
      InsertTraced(st, a, c);
    } else {
      OtherTraced(st, a, c);
    }
  }

  /** A save writes the registry as it then is. */
  ghost predicate SavesItself(st: State, q: State) { q.saved == st.saved || q.saved == q.reg.subs }

  lemma ActivatedSaves(st: State, s: Sub, requested: U64, ok: bool)
    ensures SavesItself(st, Activated(st, s, requested, ok))
  {
    hide ActivateReg;
  }

  lemma PassesSave(st: State, ok: bool)
    ensures st.renew.RStarted? ==> SavesItself(st, Expiring(st, ok))
    ensures st.renew.RMerging? ==> SavesItself(st, RenewMerged(st, ok))
    ensures st.recon.CMerging? ==> SavesItself(st, ReconMerged(st, ok))
  {
    hide ExpireReg, MergeReg, Mergeable;
  }

  lemma SavedBy(st: State, a: Step)
    requires Enabled(st, a)
    ensures SavesItself(st, Next(st, a))
  {
    if a.VerifyActivate? {
      ActivatedSaves(st, a.s, RequestedLease(a.q, st.env.cfgLease), a.ok);
      hide SavesItself, Activated, Genuine;
    } else if a.RenewExpire? || a.RenewMerge? || a.ReconMerge? {
      PassStepSaves(st, a);
      hide *;
    } else {
      hide RemoveReg, InsertReg, ForgetReg, Reloaded, Candidates, Attempted, FirstVerdict, PlanFor, ByToken, FirstSub;
    }
  }

  lemma PassStepSaves(st: State, a: Step)
    requires Enabled(st, a) && (a.RenewExpire? || a.RenewMerge? || a.ReconMerge?)
    ensures SavesItself(st, Next(st, a))
  {
    PassesSave(st, a.ok);
    hide SavesItself, Expiring, RenewMerged, ReconMerged;
  }

  lemma GrantedLater(states: seq<State>, steps: seq<Step>, k: nat, c: string, expires: nat)
    requires Granted(states, steps, k, c, expires)
    ensures Granted(states, steps, k + 1, c, expires)
  {
    hide GrantedAt;
  }

  /** Every expiry of an active record, in the registry and in the file, was granted by a verification. */
  lemma {:induction false} ExpiryIsGranted(states: seq<State>, steps: seq<Step>, k: nat, c: string)
    requires IsRun(states, steps) && k < |states|
    ensures ActiveAt(states[k].reg, c) ==> Granted(states, steps, k, c, states[k].reg.subs[c].expiresAt)
    ensures ActiveIn(states[k].saved, c) ==> Granted(states, steps, k, c, states[k].saved[c].expiresAt)
  {
    if k > 0 {
      RunStep(states, steps, k - 1);
      RunInv(states, steps, k - 1);
      ExpiryIsGranted(states, steps, k - 1, c);
      hide IsRun, Inv, Enabled, Active, GrantedAt, Next;
      var st, a := states[k - 1], steps[k - 1];
      StepTraced(st, a, c);
      SavedBy(st, a);
      if ActiveAt(states[k].reg, c) {
        StillGranted(states, steps, k - 1, c, states[k].reg.subs[c].expiresAt);
      }
      if ActiveIn(st.saved, c) {
        GrantedLater(states, steps, k - 1, c, st.saved[c].expiresAt);
      }
    }
  }

  lemma StillGranted(states: seq<State>, steps: seq<Step>, k: nat, c: string, x: nat)
    requires k < |steps| && k < |states|
    requires ActiveUntil(states[k].reg.subs, c, x) ==> Granted(states, steps, k, c, x)
    requires ActiveUntil(states[k].saved, c, x) ==> Granted(states, steps, k, c, x)
    requires
      || ActiveUntil(states[k].reg.subs, c, x) || ActiveUntil(states[k].saved, c, x)
      || GrantedAt(states[k], steps[k], c, x)
    ensures Granted(states, steps, k + 1, c, x)
  {
    hide GrantedAt, ActiveUntil;
  }

  /**
   * A subscription that counts as delivering was verified, while registered, less than the configured
   * lease ago, and less than the lease that this very verification named, whatever was merged or
   * reloaded since; its expiry is within both.
   */
  lemma LeaseSoundness(states: seq<State>, steps: seq<Step>, k: nat, c: string) returns (j: nat)
    requires IsRun(states, steps) && k < |states|
    requires c in states[k].reg.subs && Live(states[k].reg.subs[c], states[k].env.now)
    ensures j < k && j < |steps| && steps[j].VerifyActivate? && steps[j].s.channelId == c
    ensures c in states[j].reg.subs
    ensures states[k].env.now < states[j].env.now + Max(states[0].env.cfgLease, 1)
    ensures
      var named := if steps[j].q.lease.Some? then steps[j].q.lease.value else states[0].env.cfgLease;
      states[k].env.now < states[k].reg.subs[c].expiresAt <= states[j].env.now + named
  {
    RunInv(states, steps, k);
    RegisteredIsGood(states[k], c);
    ExpiryIsGranted(states, steps, k, c);
    var x := states[k].reg.subs[c].expiresAt;
    assert ActiveAt(states[k].reg, c);
    j :| 0 <= j < k && j < |steps| && j < |states| && GrantedAt(states[j], steps[j], c, x);
    ConfigIsConstant(states, steps, 0, j);
    hide IsRun, Next, Enabled, Good, Inv;
  }

  // ---- the index ----------------------------------------------------------

  /**
   * At every moment `subs` and `by_token` are mutually inverse and no token is both live and buried;
   * a reconcile registers a channel only while it is absent, and a token only once.
   */
  lemma RegistryIndex(states: seq<State>, steps: seq<Step>, k: nat)
    requires IsRun(states, steps) && k < |states|
    ensures Indexed(states[k].reg) && Separate(states[k].reg)
    ensures k < |steps| && steps[k].ReconInsert? ==>
      && states[k].recon.plan.adds[0] !in states[k].reg.subs
      && steps[k].token !in states[k].reg.byToken && steps[k].token !in states[k].reg.unsub
  {
    RunInv(states, steps, k);
    if k < |steps| && steps[k].ReconInsert? {
      InsertStep(states[k], steps[k].token, steps[k].secret);
      FreshToken(states[k].env, states[k].reg, steps[k].token);
    }
    hide Next;
  }
}

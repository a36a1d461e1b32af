/** What a whole reconcile achieves while verifications and renewals run beside it. */
module ReconcileTheorems {
  import opened Base
  import opened Lifecycle
  import opened Protocol
  import opened ProtocolSteps
  import opened ProtocolTheorems
  import opened SubsSpec

  /** From step `i`, which makes the plan, to step `k`, which finishes it, with no restart in between. */
  ghost predicate OneReconcile(states: seq<State>, steps: seq<Step>, i: nat, k: nat) {
    && IsRun(states, steps)
    && i < k < |steps|
    && steps[i].ReconPlan? && steps[k].ReconFinish?
    && forall m :: i < m < k ==> !steps[m].Restart? && !steps[m].ReconFinish?
  }

  predicate Follows(c: Recon, r: Reg, desired: seq<string>, complete: bool) {
    !c.CIdle? && c.plan.start == r.subs && c.plan.desired == desired && c.plan.complete == complete
  }

  lemma PlanIsKept(st: State, a: Step, r: Reg, desired: seq<string>, complete: bool)
    requires Enabled(st, a) && Follows(st.recon, r, desired, complete)
    requires !a.Restart? && !a.ReconFinish?
    ensures Follows(Next(st, a).recon, r, desired, complete)
  {
    hide Verdict, Refused, Candidates, Attempted, Reloaded;
  }

  lemma ReconcileAt(states: seq<State>, steps: seq<Step>, i: nat, k: nat, m: nat)
    requires OneReconcile(states, steps, i, k) && i <= m < k
    ensures IsRun(states, steps) && |states| == |steps| + 1 && k < |steps| && steps[i].ReconPlan?
    ensures m > i ==> !steps[m].Restart? && !steps[m].ReconFinish?
  {
    hide Init, Enabled, Next;
  }

  lemma PlanIsMade(st: State, a: Step)
    requires Enabled(st, a) && a.ReconPlan?
    ensures Follows(Next(st, a).recon, st.reg, a.desired, a.complete)
  {
    hide PlanAdds, PlanRemoves;
  }

  lemma {:induction false} PlanFollowed(states: seq<State>, steps: seq<Step>, i: nat, k: nat, m: nat)
    requires OneReconcile(states, steps, i, k) && i < m <= k
    ensures Follows(states[m].recon, states[i].reg, steps[i].desired, steps[i].complete)
    decreases m
  {
    hide *;
    ReconcileAt(states, steps, i, k, m - 1);
    RunStep(states, steps, m - 1);
    if m > i + 1 {
      PlanFollowed(states, steps, i, k, m - 1);
      PlanIsKept(states[m - 1], steps[m - 1], states[i].reg, steps[i].desired, steps[i].complete);
    } else {
      PlanIsMade(states[i], steps[i]);
    }
  }

  lemma FinishedKeys(r: Reg, p: Plan)
    requires PlanOk(r, p) && p.adds == [] && p.dels == {}
    ensures r.subs.Keys == if p.complete then Elements(p.desired) else p.start.Keys + Elements(p.desired)
  {
    assert Elements(p.adds) == {};
  }

  /**
   * With a complete desired set the registered channels end equal to it; with an incomplete one
   * nothing is removed. Channels that were there before keep their token and secret. This holds for
   * every interleaving with verifications and renew passes, because no other step changes the set of
   * channels.
   */
  lemma ReconcileReachesDesired(states: seq<State>, steps: seq<Step>, i: nat, k: nat)
    requires OneReconcile(states, steps, i, k)
    ensures var before, after, desired := states[i].reg, states[k + 1].reg, Elements(steps[i].desired);
      && after.subs.Keys == (if steps[i].complete then desired else before.subs.Keys + desired)
      && forall c :: c in before.subs && c in after.subs ==>
           after.subs[c].token == before.subs[c].token && after.subs[c].secret == before.subs[c].secret
  {
    RunInv(states, steps, k);
    PlanFollowed(states, steps, i, k, k);
    assert Enabled(states[k], steps[k]) && states[k + 1] == Next(states[k], steps[k]);
    FinishedKeys(states[k].reg, states[k].recon.plan);
    hide PlanAdds, PlanRemoves, RegOk, Fresh, GoodMap, GoodSet, GoodBag;
  }

  /** A second run on the same desired set has nothing to add and nothing to remove. */
  lemma ReconcileIsIdempotent(states: seq<State>, steps: seq<Step>, i: nat, k: nat)
    requires OneReconcile(states, steps, i, k)
    ensures var p := PlanFor(states[k + 1].reg, steps[i].desired, steps[i].complete);
      p.adds == [] && p.dels == {}
  {
    ReconcileReachesDesired(states, steps, i, k);
    var r, desired := states[k + 1].reg, steps[i].desired;
    forall c | c in desired ensures c in r.subs {
      assert c in Elements(desired);
    }
    NothingAbsent(r, desired);
    hide OneReconcile;
  }

  lemma NothingAbsent(r: Reg, desired: seq<string>)
    requires forall c :: c in desired ==> c in r.subs
    ensures PlanAdds(r, desired) == []
  {
    FilterNone(c => c !in r.subs, desired);
  }

  /**
   * No step of a running process but a reconcile's own insertions and removals changes which channels
   * are registered; a restart brings back the channels that were saved last, whichever those are.
   */
  lemma OnlyReconcileChangesChannels(states: seq<State>, steps: seq<Step>, k: nat)
    requires IsRun(states, steps) && k < |steps|
    requires !steps[k].ReconInsert? && !steps[k].ReconRemove?
    ensures states[k + 1].reg.subs.Keys == if steps[k].Restart? then states[k].saved.Keys else states[k].reg.subs.Keys
  {
    RunInv(states, steps, k);
    if steps[k].Restart? {
      RestartEffect(states[k], steps[k]);
    } else {
      KeysStep(states[k], steps[k]);
    }
    hide Inv, Next, Enabled;
  }

  lemma KeysStep(st: State, a: Step)
    requires Inv(st) && Enabled(st, a)
    requires !a.ReconInsert? && !a.ReconRemove? && !a.Restart?
    ensures Next(st, a).reg.subs.Keys == st.reg.subs.Keys
  {
    if Quiet(a) {
      QuietStep(st, a);
    } else {
      match a {
        case VerifyActivate(s, q, ok) => ActivateEffect(st, s, RequestedLease(q, st.env.cfgLease), ok, "");
          hide Activated;
        case RenewMerge(_) => MergeKeys(st.reg, st.renew.s); hide MergeReg;
        case ReconMerge(_) => MergeKeys(st.reg, st.recon.s); hide MergeReg;
        case RenewExpire(ok) => ExpireEffect(st, ok, ""); hide Expiring;
      }
    }
    hide Inv;
  }

  lemma MergeKeys(r: Reg, s: Sub)
    requires Indexed(r)
    ensures MergeReg(r, s).subs.Keys == r.subs.Keys
  {
  }
}

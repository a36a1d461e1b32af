/** Steps of one thread with nothing in between come to what the passes compute as programs. */
module ProtocolPasses {
  import opened Base
  import opened Lifecycle
  import opened Passes
  import opened Protocol
  import opened ProtocolSteps
  import opened ProtocolTheorems
  import opened SubsSpec
  import R = Registry

  /** What the steps of a list make of a state. */
  ghost predicate Leads(st: State, steps: seq<Step>, q: State)
    decreases |steps|
  {
    if steps == [] then q == st
    else Enabled(st, steps[0]) && Leads(Next(st, steps[0]), steps[1..], q)
  }

  lemma {:induction false} LeadsNext(st: State, steps: seq<Step>, mid: State, a: Step)
    requires Leads(st, steps, mid) && Enabled(mid, a)
    ensures Leads(st, steps + [a], Next(mid, a))
    decreases |steps|
  {
    hide Enabled, Next;
    if steps == [] {
      assert [] + [a] == [a] && [a][1..] == [];
    } else {
      LeadsNext(Next(st, steps[0]), steps[1..], mid, a);
      assert (steps + [a])[1..] == steps[1..] + [a];
    }
  }

  lemma LeadsThree(st: State, x: Step, y: Step, z: Step)
    requires Enabled(st, x) && Enabled(Next(st, x), y) && Enabled(Next(Next(st, x), y), z)
    ensures Leads(st, [x, y, z], Next(Next(Next(st, x), y), z))
  {
    hide Enabled, Next;
    var a, b := Next(st, x), Next(Next(st, x), y);
    assert [x, y, z][1..] == [y, z] && [y, z][1..] == [z] && [z][1..] == [];
    assert Leads(b, [z], Next(b, z));
    assert Leads(a, [y, z], Next(b, z));
  }

  /**
   * The hub is asked for a candidate whose record is still the one selected, and answers at `t`: the
   * record becomes the one that the program's pass leaves, and nothing else changes.
   */
  lemma RenewAlone(st: State, s: Sub, t: Clock, reply: Reply, draw: nat, ok: bool) returns (q: State)
    requires Inv(st) && st.renew.RPass? && s in st.renew.todo && st.env.now <= t
    requires s.channelId in st.reg.subs && st.reg.subs[s.channelId] == s
    ensures Leads(st, [RenewSend(s), Tick(t), RenewVerdict(reply, draw), RenewMerge(ok)], q)
    ensures q.reg == st.reg.(subs :=
      st.reg.subs[s.channelId := Renewed(s, Outside("", "", reply, st.env.now, t, draw))])
    ensures q.renew == RPass(st.renew.todo - {s}) && q.saved == if ok then q.reg.subs else st.saved
    ensures q.recon == st.recon && q.verifies == st.verifies && q.env == st.env.(now := t)
  {
    var w := Outside("", "", reply, st.env.now, t, draw);
    MergesOwn(st, s, w);
    var c := SentAndAnswered(st, s, t, reply, draw);
    q := RenewalStored(st, c, [RenewSend(s), Tick(t), RenewVerdict(reply, draw)], ok);
    hide *;
  }

  lemma RenewalStored(st: State, c: State, front: seq<Step>, ok: bool) returns (q: State)
    requires Leads(st, front, c) && |front| == 3 && c.renew.RMerging? && Mergeable(c.reg, c.renew.s)
    ensures Leads(st, [front[0], front[1], front[2], RenewMerge(ok)], q)
    ensures q == c.(reg := MergeReg(c.reg, c.renew.s), renew := RPass(c.renew.todo), saved := q.saved)
    ensures q.saved == if ok then q.reg.subs else c.saved
  {
    hide Leads, MergeReg, Mergeable;
    q := Next(c, RenewMerge(ok));
    LeadsNext(st, front, c, RenewMerge(ok));
    assert front + [RenewMerge(ok)] == [front[0], front[1], front[2], RenewMerge(ok)];
  }

  lemma MergesOwn(st: State, s: Sub, w: Outside)
    requires Inv(st) && s.channelId in st.reg.subs && st.reg.subs[s.channelId] == s
    ensures Mergeable(st.reg, Renewed(s, w))
    ensures MergeReg(st.reg, Renewed(s, w)) == st.reg.(subs := st.reg.subs[s.channelId := Renewed(s, w)])
  {
    RenewedKeeps(s, w);
    OwnIsMergeable(st.reg, s, Renewed(s, w));
    StoreOwn(st.reg, Renewed(s, w));
    hide Renewed, MergeReg, Mergeable, Indexed;
  }

  lemma SentAndAnswered(st: State, s: Sub, t: Clock, reply: Reply, draw: nat) returns (c: State)
    requires st.renew.RPass? && s in st.renew.todo && st.env.now <= t
    ensures Leads(st, [RenewSend(s), Tick(t), RenewVerdict(reply, draw)], c)
    ensures
      var w := Outside("", "", reply, st.env.now, t, draw);
      c == st.(renew := RMerging(st.renew.todo - {s}, Renewed(s, w)), env := st.env.(now := t))
  {
    hide Attempted, Leads;
    var a := Next(st, RenewSend(s));
    var b := Next(a, Tick(t));
    c := Next(b, RenewVerdict(reply, draw));
    LeadsThree(st, RenewSend(s), Tick(t), RenewVerdict(reply, draw));
  }

  /** The beginning of a pass: the lapsed records are demoted, and the due ones of the rest are taken up. */
  lemma PassBeginsAlone(st: State, ok: bool) returns (q: State)
    requires Inv(st) && st.renew.RIdle?
    ensures Leads(st, [RenewStart, RenewExpire(ok), RenewSnapshot], q)
    ensures q.reg == ExpireReg(st.reg, st.env.now)
    ensures q.renew == RPass(Candidates(ExpireReg(st.reg, st.env.now), st.env.now))
    ensures q.saved == if ok && q.reg != st.reg then q.reg.subs else st.saved
    ensures q.recon == st.recon && q.verifies == st.verifies && q.env == st.env
  {
    hide ExpireReg, Candidates, Inv, Leads;
    var a := Next(st, RenewStart);
    var b := Next(a, RenewExpire(ok));
    q := Next(b, RenewSnapshot);
    LeadsThree(st, RenewStart, RenewExpire(ok), RenewSnapshot);
  }

  /** A new channel is registered, the hub accepts at `t`, and the record is the one the program leaves. */
  lemma AddAcceptedAlone(st: State, token: string, secret: string, t: Clock, reply: Reply, draw: nat) returns (q: State)
    requires Inv(st) && Enabled(st, ReconInsert(token, secret)) && st.env.now <= t && !IsRefusal(reply)
    ensures Leads(st, [ReconInsert(token, secret), Tick(t), ReconVerdict(reply, draw)], q)
    ensures
      var c := st.recon.plan.adds[0];
      q.reg == InsertReg(st.reg, First(c, Outside(token, secret, reply, st.env.now, t, draw)))
    ensures q.recon == CPlanned(st.recon.plan.(adds := st.recon.plan.adds[1..]))
  {
    var c := st.recon.plan.adds[0];
    q := InsertedAndAnswered(st, token, secret, t, reply, draw);
    FirstIsPlain(st, token, secret, t, reply, draw);
    hide *;
  }

  lemma FirstIsPlain(st: State, token: string, secret: string, t: Clock, reply: Reply, draw: nat)
    requires st.recon.CPlanned? && st.recon.plan.adds != []
    ensures
      var f := First(st.recon.plan.adds[0], Outside(token, secret, reply, st.env.now, t, draw));
      && (!IsRefusal(reply) ==> f == FirstSub(st, token, secret))
      && (IsRefusal(reply) ==>
            Verdict(reply).Some? && f == Refused(FirstSub(st, token, secret), Verdict(reply).value, t, draw))
  {
    hide Refused, TopicFor;
  }

  lemma InsertedAndAnswered(st: State, token: string, secret: string, t: Clock, reply: Reply, draw: nat)
    returns (d: State)
    requires Enabled(st, ReconInsert(token, secret)) && st.env.now <= t
    ensures Leads(st, [ReconInsert(token, secret), Tick(t), ReconVerdict(reply, draw)], d)
    ensures
      var s, plan := FirstSub(st, token, secret), st.recon.plan.(adds := st.recon.plan.adds[1..]);
      && d.reg == InsertReg(st.reg, s) && d.saved == st.saved
      && d.recon ==
           if IsRefusal(reply) then CMerging(plan, Refused(s, Verdict(reply).value, t, draw)) else CPlanned(plan)
  {
    var i, k, v := ReconInsert(token, secret), Tick(t), ReconVerdict(reply, draw);
    hide InsertReg, TopicFor, FirstSub, Refused, Leads;
    var a := Next(st, i);
    var b := Next(a, k);
    d := Next(b, v);
    LeadsThree(st, i, k, v);
  }

  /** Likewise when the hub refuses: the refusal is stored over the record just inserted. */
  lemma AddRefusedAlone(st: State, token: string, secret: string, t: Clock, reply: Reply, draw: nat, ok: bool)
    returns (q: State)
    requires Inv(st) && Enabled(st, ReconInsert(token, secret)) && st.env.now <= t && IsRefusal(reply)
    ensures Leads(st, [ReconInsert(token, secret), Tick(t), ReconVerdict(reply, draw), ReconMerge(ok)], q)
    ensures
      var c := st.recon.plan.adds[0];
      q.reg == InsertReg(st.reg, First(c, Outside(token, secret, reply, st.env.now, t, draw)))
    ensures q.recon == CPlanned(st.recon.plan.(adds := st.recon.plan.adds[1..]))
    ensures q.saved == if ok then q.reg.subs else st.saved
  {
    var c := st.recon.plan.adds[0];
    var w := Outside(token, secret, reply, st.env.now, t, draw);
    var s, f := FirstSub(st, token, secret), First(c, w);
    var d := InsertedAndAnswered(st, token, secret, t, reply, draw);
    FirstIsPlain(st, token, secret, t, reply, draw);
    InsertedIsSound(st, token, secret);
    RefusalMerges(st.reg, s, f, c, w);
    q := RefusalStored(st, d, [ReconInsert(token, secret), Tick(t), ReconVerdict(reply, draw)], ok);
    hide *;
  }

  lemma RefusalMerges(r: Reg, s: Sub, f: Sub, c: string, w: Outside)
    requires f == First(c, w) && s.channelId == c && s.token == w.token && !Active(s)
    requires var q := InsertReg(r, s); Indexed(q) && Separate(q) && c in q.subs && q.subs[c] == s
    ensures MergeReg(InsertReg(r, s), f) == InsertReg(r, f) && Mergeable(InsertReg(r, s), f)
  {
    FirstIds(c, w);
    OwnIsMergeable(InsertReg(r, s), s, f);
    StoreRefusal(InsertReg(r, s), s, f);
    InsertThenStore(r, s, f);
    hide *;
  }

  lemma RefusalStored(st: State, d: State, front: seq<Step>, ok: bool) returns (q: State)
    requires Leads(st, front, d) && |front| == 3 && d.recon.CMerging? && Mergeable(d.reg, d.recon.s)
    ensures Leads(st, [front[0], front[1], front[2], ReconMerge(ok)], q)
    ensures q.reg == MergeReg(d.reg, d.recon.s) && q.recon == CPlanned(d.recon.plan)
    ensures q.saved == if ok then q.reg.subs else d.saved
  {
    hide Leads, MergeReg, Mergeable;
    q := Next(d, ReconMerge(ok));
    LeadsNext(st, front, d, ReconMerge(ok));
    assert front + [ReconMerge(ok)] == [front[0], front[1], front[2], ReconMerge(ok)];
  }

  lemma InsertedIsSound(st: State, token: string, secret: string)
    requires Inv(st) && Enabled(st, ReconInsert(token, secret))
    ensures var s := FirstSub(st, token, secret);
      var q := InsertReg(st.reg, s);
      && Indexed(q) && Separate(q) && s.channelId in q.subs && q.subs[s.channelId] == s && !Active(s)
      && s.channelId == st.recon.plan.adds[0] && s.token == token
  {
    InsertStep(st, token, secret);
    FirstSubPending(st, token, secret);
    hide FirstSub;
  }
}

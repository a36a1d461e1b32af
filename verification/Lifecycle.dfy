/** What one lock-held region does to the registry (`src/renew.rs`, `src/callback.rs`). */
module Lifecycle {
  import opened Base
  import opened SubsSpec
  import Text

  const RENEW_LEAD: nat := 24 * 3600
  const PENDING_TIMEOUT: nat := 600
  const RENEW_COOLDOWN: nat := 300
  const MAX_BACKOFF: nat := 2250

  predicate IsState(s: string) { s == "pending" || s == "active" || s == "expired" || s == "failed" }

  predicate Active(s: Sub) { s.state == "active" }

  /** The hub is delivering: verified, and inside the lease. */
  predicate Live(s: Sub, now: nat) { Active(s) && !LeaseExpired(s, now) }

  // ---- hub verdicts and backoff -------------------------------------------

  /** What `hub::send` can return. */
  datatype Reply = Status(code: nat) | Transport(error: string)

  /** `verdict`: `None` when the request was accepted. */
  function Verdict(reply: Reply): Option<string> {
    match reply
    case Status(code) => if 200 <= code < 300 then None else Some("HTTP " + Text.Dec(code))
    case Transport(e) => Some(ClampError(e))
  }

  /** Only a status from 200 to 299 accepts; any other is a refusal that carries its code, in 200 characters at most. */
  lemma VerdictMeaning(code: nat, e: string)
    ensures Verdict(Status(code)) == if 200 <= code <= 299 then None else Some("HTTP " + Text.Dec(code))
    ensures Verdict(Transport(e)) == Some(if |e| <= 200 then e else e[..200])
  {
    ErrorCut(e);
  }

  function Pow2(n: nat): nat { if n == 0 then 1 else 2 * Pow2(n - 1) }

  lemma Pow2Values()
    ensures Pow2(0) == 1 && Pow2(1) == 2 && Pow2(2) == 4 && Pow2(3) == 8
    ensures Pow2(4) == 16 && Pow2(5) == 32 && Pow2(6) == 64
  {
    assert Pow2(2) == 4;
    assert Pow2(4) == 16;
  }

  function BackoffBase(failCount: U32): nat { Min(30 * Pow2(Min(failCount, 6)), 1800) }

  /** `backoff`, with the random draw as an input. */
  function Backoff(failCount: U32, draw: nat): nat {
    var base := BackoffBase(failCount);
    base + draw % (base / 4 + 1)
  }

  /** The wait doubles up to its cap, and jitter only extends it, by at most a quarter. */
  lemma BackoffBounds(failCount: U32, draw: nat)
    ensures BackoffBase(failCount) <= Backoff(failCount, draw) <= MAX_BACKOFF
    ensures 4 * (Backoff(failCount, draw) - BackoffBase(failCount)) <= BackoffBase(failCount)
    ensures failCount + 1 < U32_BOUND ==>
      BackoffBase(failCount + 1) == Min(2 * BackoffBase(failCount), 1800)
  {
    Pow2Values();
    var base := BackoffBase(failCount);
    var j := draw % (base / 4 + 1);
    assert j <= base / 4;
  }

  /** The first wait is that of the table; a quarter of it is spread evenly over the draws. */
  lemma BackoffTable(n: U32)
    ensures BackoffBase(0) == 30 && BackoffBase(1) == 60 && BackoffBase(2) == 120 && BackoffBase(3) == 240
    ensures BackoffBase(4) == 480 && BackoffBase(5) == 960 && (n >= 6 ==> BackoffBase(n) == 1800)
    ensures forall j :: 0 <= j <= BackoffBase(n) / 4 ==> Backoff(n, j) == BackoffBase(n) + j
  {
    Pow2Values();
  }

  lemma BackoffLeast(n: U32)
    ensures BackoffBase(n) >= 30
  {
    Pow2Values();
    BackoffTable(n);
    assert n == 0 || n == 1 || n == 2 || n == 3 || n == 4 || n == 5 || n >= 6;
    hide BackoffBase;
  }

  /** Until the cap is reached, each refusal in a row waits longer than the one before, whatever is drawn. */
  lemma NextWaitIsLonger(n: U32, draw: nat, next: nat)
    requires n < 6
    ensures Backoff(n, draw) < Backoff(n + 1, next)
  {
    BackoffBounds(n, draw);
    BackoffBounds(n + 1, next);
    BackoffTable(n + 1);
    hide Backoff, BackoffBase;
  }

  // ---- verification -------------------------------------------------------

  /** The query of a request on a callback path. */
  datatype Request = Request(mode: string, topic: string, challenge: string, verifyToken: string, lease: Option<U64>)

  /** `handle_verify` rejects anything that does not match the subscription found by its token. */
  predicate Genuine(s: Sub, q: Request) {
    q.topic == s.topic && q.challenge != "" && (q.verifyToken == "" || q.verifyToken == s.token)
  }

  function RequestedLease(q: Request, cfgLease: U64): U64 {
    match q.lease case Some(n) => n case None => cfgLease
  }

  /** `finish_unsubscribe` echoes the challenge. */
  predicate ConfirmsUnsubscribe(r: Reg, token: string, q: Request, now: nat) {
    UnsubTopic(r, token, now) == Some(q.topic) && q.mode == "unsubscribe" && q.challenge != ""
  }

  /**
   * A hub that verifies an unsubscribe is answered exactly while the grace period runs, whatever the
   * registry did in between; a subscribe check on a buried token never is.
   */
  lemma UnsubscribeCompletes(r: Reg, channelId: string, at: nat, ops: seq<Op>, q: Request, now: nat)
    requires Indexed(r) && channelId in r.subs && at <= now
    requires forall i :: 0 <= i < |ops| ==> NotAfter(ops[i], now) && LeavesBuried(ops[i], r.subs[channelId].token)
    requires q.topic == r.subs[channelId].topic && q.challenge != ""
    ensures ConfirmsUnsubscribe(ApplyAll(RemoveReg(r, channelId, at), ops), r.subs[channelId].token, q, now)
      <==> q.mode == "unsubscribe" && now < at + 900
  {
    UnsubscribeGrace(r, channelId, at, ops, now);
  }

  function GrantedLease(requested: U64, cfgLease: U64): U64 { Min(requested, Max(cfgLease, 1)) }

  function Verified(s: Sub, requested: U64, cfgLease: U64, now: Clock): Sub {
    var lease := GrantedLease(requested, cfgLease);
    s.(state := "active", leaseSeconds := lease, expiresAt := SatAdd(now, lease), failCount := 0, nextAttemptAt := 0)
  }

  /** The second region of `handle_verify`: re-fetched by channel, whatever token it now has. */
  function ActivateReg(r: Reg, channelId: string, requested: U64, cfgLease: U64, now: Clock): Reg {
    if channelId in r.subs then UpdateReg(r, Verified(r.subs[channelId], requested, cfgLease, now)) else r
  }

  // ---- write-back ---------------------------------------------------------

  /** The record `merge_attempt` stores over `cur`. */
  function Merged(cur: Sub, s: Sub): Sub {
    if Active(cur)
    then s.(state := "active", expiresAt := cur.expiresAt, leaseSeconds := cur.leaseSeconds)
    else s
  }

  predicate Mergeable(r: Reg, s: Sub) { s.channelId in r.subs && r.subs[s.channelId].token == s.token }

  function MergeReg(r: Reg, s: Sub): Reg {
    if Mergeable(r, s) then UpdateReg(r, Merged(r.subs[s.channelId], s)) else r
  }

  // ---- the renew pass -----------------------------------------------------

  function Expired(s: Sub, now: nat): Sub {
    if Active(s) && LeaseExpired(s, now) then s.(state := "expired") else s
  }

  function ExpireReg(r: Reg, now: nat): Reg {
    r.(subs := map c | c in r.subs :: Expired(r.subs[c], now))
  }

  /** The filter of `renew_due`. */
  predicate Due(s: Sub, now: nat) {
    && now >= s.nextAttemptAt
    && if s.state == "active" then s.expiresAt > 0 && now + RENEW_LEAD >= s.expiresAt
       else if s.state == "pending" then SatSub(now, s.lastSubscribeAt) > PENDING_TIMEOUT
       else s.state == "failed" || s.state == "expired"
  }

  function Candidates(r: Reg, now: nat): set<Sub> { set c | c in r.subs && Due(r.subs[c], now) :: r.subs[c] }

  /** A renewal attempt's record once the hub has answered. */
  function Attempted(s: Sub, reply: Reply, now: Clock, draw: nat): Sub {
    match Verdict(reply)
    case None =>
      s.(state := if Active(s) then s.state else "pending", failCount := 0, lastError := "",
         nextAttemptAt := now + RENEW_COOLDOWN)
    case Some(why) =>
      var fails := (s.failCount + 1) % U32_BOUND;
      BackoffBounds(fails, draw);
      s.(state := if Active(s) then s.state else "failed", failCount := fails, lastError := why,
         nextAttemptAt := now + Backoff(fails, draw))
  }

  /** A reply to a renewal: what the hub said, when, and the random draw. */
  datatype Answered = Answered(reply: Reply, at: Clock, draw: nat)

  /** A record after a row of attempts. */
  function AfterAttempts(s: Sub, row: seq<Answered>): Sub {
    if row == [] then s
    else
      var last := row[|row| - 1];
      Attempted(AfterAttempts(s, row[..|row| - 1]), last.reply, last.at, last.draw)
  }

  /** What one attempt does: an accepted one clears the failures, a refused one counts, keeps its reason and waits. */
  lemma AttemptMeaning(s: Sub, reply: Reply, now: Clock, draw: nat)
    ensures var q := Attempted(s, reply, now, draw);
      && q == s.(state := q.state, failCount := q.failCount, lastError := q.lastError, nextAttemptAt := q.nextAttemptAt)
      && (s.state == "active" ==> q.state == "active")
      && (reply.Status? && 200 <= reply.code <= 299 ==>
            && (s.state != "active" ==> q.state == "pending")
            && q.failCount == 0 && q.lastError == "" && q.nextAttemptAt == now + 300)
      && (reply.Status? && !(200 <= reply.code <= 299) ==>
            && (s.state != "active" ==> q.state == "failed")
            && q.lastError == "HTTP " + Text.Dec(reply.code))
      && (reply.Transport? ==>
            && (s.state != "active" ==> q.state == "failed")
            && q.lastError == if |reply.error| <= 200 then reply.error else reply.error[..200])
      && (!(reply.Status? && 200 <= reply.code <= 299) ==>
            && q.failCount == (s.failCount + 1) % 0x1_0000_0000
            && q.nextAttemptAt == now + Backoff(q.failCount, draw))
  {
    VerdictMeaning(if reply.Status? then reply.code else 0, if reply.Transport? then reply.error else "");
    hide Verdict, Backoff;
  }

  predicate IsRefusal(reply: Reply) { !(reply.Status? && 200 <= reply.code <= 299) }

  /**
   * Refusals in a row are counted, and the record waits 60 s after the first one, twice as long after
   * each further one, half an hour at most, and up to a quarter more each time.
   */
  lemma {:induction false} RefusalsInARow(s: Sub, row: seq<Answered>)
    requires s.failCount == 0 && 0 < |row| < 0x1_0000_0000
    requires forall i :: 0 <= i < |row| ==> IsRefusal(row[i].reply)
    ensures var q, base := AfterAttempts(s, row), if |row| <= 5 then 30 * Pow2(|row|) else 1800;
      && q.failCount == |row|
      && row[|row| - 1].at + base <= q.nextAttemptAt <= row[|row| - 1].at + base + base / 4
      && q.state == (if s.state == "active" then "active" else "failed")
  {
    hide Attempted, Backoff, BackoffBase;
    var front, last := row[..|row| - 1], row[|row| - 1];
    var p := AfterAttempts(s, front);
    assert IsRefusal(last.reply);
    if front != [] {
      RefusalsInARow(s, front);
    }
    AttemptMeaning(p, last.reply, last.at, last.draw);
    BackoffBounds(|row|, last.draw);
    BackoffTable(|row|);
    Pow2Values();
  }

  // ---- reconcile ----------------------------------------------------------

  function Elements<T>(s: seq<T>): set<T> { set x | x in s }

  /** Desired channels that are not registered, in the desired order. */
  function PlanAdds(r: Reg, desired: seq<string>): seq<string> {
    Filter(c => c !in r.subs, desired)
  }

  /** Registered channels that are not desired; none while the desired set is incomplete. */
  function PlanRemoves(r: Reg, desired: seq<string>, complete: bool): set<string> {
    if complete then r.subs.Keys - Elements(desired) else {}
  }

  /** The record a refused first subscribe is merged as. */
  function Refused(s: Sub, why: string, now: Clock, draw: nat): Sub {
    BackoffBounds(1, draw);
    s.(state := "failed", failCount := 1, nextAttemptAt := now + Backoff(1, draw), lastError := why)
  }

  function LiveCount(r: Reg, now: nat): nat { |set c | c in r.subs && Live(r.subs[c], now)| }
}

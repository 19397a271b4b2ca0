/** Waiting out quota windows: one budget shared by every runner of a run, and a retry loop that the
    budget alone makes terminate. Times are integer ticks. */
module Quota {
  import opened Wrappers

  datatype Policy = Policy(resetBuffer: nat, backoff: seq<nat>, maxWait: nat)

  /** The configuration check: a positive buffer and at least one, positive, backoff. */
  predicate Configured(p: Policy) {
    p.resetBuffer >= 1 && p.backoff != [] && forall i :: 0 <= i < |p.backoff| ==> p.backoff[i] >= 1
  }

  function WaitPlan(resetAt: Option<int>, attempt: nat, now: int, p: Policy): int
    requires Configured(p)
  {
    if resetAt.Some? && resetAt.value > now then (resetAt.value - now) + p.resetBuffer
    else p.backoff[if attempt < |p.backoff| - 1 then attempt else |p.backoff| - 1]
  }

  function Least(xs: seq<nat>): (m: nat)
    requires xs != []
    ensures m in xs && forall i :: 0 <= i < |xs| ==> m <= xs[i]
  {
    if |xs| == 1 then xs[0]
    else
      var m := Least(xs[..|xs| - 1]);
      if xs[|xs| - 1] < m then xs[|xs| - 1] else m
  }

  function LeastWait(p: Policy): (m: nat)
    requires Configured(p)
    ensures m >= 1
  {
    assert Least(p.backoff) in p.backoff;
    if p.resetBuffer < Least(p.backoff) then p.resetBuffer else Least(p.backoff)
  }

  /** Every planned wait is positive and no shorter than the least configured one; a known reset is
      always outwaited. */
  lemma WaitIsPositive(resetAt: Option<int>, attempt: nat, now: int, p: Policy)
    requires Configured(p)
    ensures 1 <= LeastWait(p) <= WaitPlan(resetAt, attempt, now, p)
    ensures resetAt.Some? && resetAt.value > now ==> now + WaitPlan(resetAt, attempt, now, p) > resetAt.value
  {
    var least := Least(p.backoff);
    var i :| 0 <= i < |p.backoff| && p.backoff[i] == least;
  }

  /** Which wait it is: until a known reset that is still to come and a buffer longer; else the backoff of that attempt, and from the
      last one on the last. */
  lemma PlanSays(resetAt: Option<int>, attempt: nat, now: int, p: Policy)
    requires Configured(p)
    ensures resetAt.Some? && resetAt.value > now ==> now + WaitPlan(resetAt, attempt, now, p) == resetAt.value + p.resetBuffer
    ensures (resetAt.None? || resetAt.value <= now) && attempt < |p.backoff| ==> WaitPlan(resetAt, attempt, now, p) == p.backoff[attempt]
    ensures (resetAt.None? || resetAt.value <= now) && attempt >= |p.backoff| ==> WaitPlan(resetAt, attempt, now, p) == p.backoff[|p.backoff| - 1]
  {
  }

  /** One call of the inner runner: did it report quota, with which reset, at what time. */
  datatype Reply = Reply(quota: bool, resetAt: Option<int>, now: int)

  /** The wait planned after that reply. */
  function PlanFor(p: Policy, reply: Reply, attempt: nat): (wait: nat)
    requires Configured(p)
    ensures wait >= 1
  {
    WaitIsPositive(reply.resetAt, attempt, reply.now, p);
    WaitPlan(reply.resetAt, attempt, reply.now, p)
  }

  /** What an episode waits in all, from attempt k on with this much budget left. */
  function Paid(p: Policy, room: nat, replies: nat -> Reply, k: nat): (paid: nat)
    requires Configured(p)
    ensures paid <= room
    decreases room
  {
    var wait := PlanFor(p, replies(k), k);
    if !replies(k).quota || wait > room then 0 else wait + Paid(p, room - wait, replies, k + 1)
  }

  /** How many waits that is. */
  function Waits(p: Policy, room: nat, replies: nat -> Reply, k: nat): nat
    requires Configured(p)
    decreases room
  {
    var wait := PlanFor(p, replies(k), k);
    if !replies(k).quota || wait > room then 0 else 1 + Waits(p, room - wait, replies, k + 1)
  }

  /** An episode's waits, each at least the least configured one, fit in the budget that was left: the
      inner runner is called at most `room / least + 1` times. */
  lemma {:induction false} WaitsAreBounded(p: Policy, room: nat, replies: nat -> Reply, k: nat)
    requires Configured(p)
    ensures Waits(p, room, replies, k) * LeastWait(p) <= Paid(p, room, replies, k)
    ensures Waits(p, room, replies, k) <= room / LeastWait(p)
    decreases room
  {
    WaitIsPositive(replies(k).resetAt, k, replies(k).now, p);
    var wait := WaitPlan(replies(k).resetAt, k, replies(k).now, p);
    if replies(k).quota && wait <= room {
      WaitsAreBounded(p, room - wait, replies, k + 1);
      Grow(Waits(p, room - wait, replies, k + 1), LeastWait(p));
    }
    Quotient(Waits(p, room, replies, k), LeastWait(p), room);
  }

  lemma Grow(n: nat, m: nat)
    ensures (n + 1) * m == n * m + m
  {
  }

  lemma Quotient(n: nat, m: nat, room: nat)
    requires m >= 1 && n * m <= room
    ensures n <= room / m
  {
    if n > room / m {
      Monotone(room / m + 1, n, m);
    }
  }

  lemma Monotone(a: nat, b: nat, m: nat)
    requires a <= b
    ensures a * m <= b * m
  {
  }

  class Budget {
    const limit: nat
    var spent: nat
    var slept: nat   // what `sleep` was really called with, over all runners

    constructor (limit: nat)
      ensures this.limit == limit && Valid() && spent == 0
    {
      this.limit, spent, slept := limit, 0, 0;
    }

    predicate Valid()
      reads this
    {
      spent <= limit && slept == spent
    }

    method Charge(wait: nat) returns (ok: bool)
      modifies this`spent
      ensures ok <==> old(spent) + wait <= limit
      ensures spent == if ok then old(spent) + wait else old(spent)
    {
      if spent + wait > limit {
        return false;
      }
      spent := spent + wait;
      return true;
    }

    method Sleep(wait: nat)
      modifies this`slept
      ensures slept == old(slept) + wait
    {
      slept := slept + wait;
    }
  }

  datatype Ended = Answered | TimedOut

  /** After `attempt` waits out of an episode's room: what is still to come of it is what an episode would bring from there on. */
  predicate Owed(p: Policy, room: nat, left: nat, replies: nat -> Reply, attempt: nat)
    requires Configured(p)
  {
    left <= room && Paid(p, room, replies, 0) == room - left + Paid(p, left, replies, attempt) &&
    Waits(p, room, replies, 0) == attempt + Waits(p, left, replies, attempt)
  }

  /** One more reply: the episode ends here, or pays its wait and goes on. */
  lemma OwedStep(p: Policy, room: nat, left: nat, replies: nat -> Reply, attempt: nat, wait: nat)
    requires Configured(p) && Owed(p, room, left, replies, attempt) && wait == PlanFor(p, replies(attempt), attempt)
    ensures replies(attempt).quota && wait <= left ==> Owed(p, room, left - wait, replies, attempt + 1)
    ensures !(replies(attempt).quota && wait <= left) ==>
              Paid(p, room, replies, 0) == room - left && Waits(p, room, replies, 0) == attempt
  {
  }

  /** One step's episode: the inner runner is called until it answers or the budget refuses a wait.
      `signals` are the attempt numbers announced - attempt 0 first and once, when there is a wait at
      all - and `resumed` is what the resume callback was told. */
  method Run(budget: Budget, p: Policy, replies: nat -> Reply)
    returns (end: Ended, calls: nat, signals: seq<nat>, resumed: Option<nat>)
    requires budget.Valid() && Configured(p)
    modifies budget
    ensures budget.Valid()
    ensures budget.spent == old(budget.spent) + Paid(p, budget.limit - old(budget.spent), replies, 0)
    ensures calls == Waits(p, budget.limit - old(budget.spent), replies, 0) + 1
    ensures |signals| == calls - 1 && forall k :: 0 <= k < |signals| ==> signals[k] == k
    ensures forall k :: 0 <= k < calls - 1 ==> replies(k).quota
    ensures end == Answered <==> !replies(calls - 1).quota
    ensures resumed == if end == Answered && calls > 1 then Some(calls - 1) else None
  {
    calls, signals, resumed := 0, [], None;
    var attempt := 0;
    ghost var room := budget.limit - budget.spent;
    ghost var left := room;
    while true
      invariant attempt == calls == |signals| && forall k :: 0 <= k < |signals| ==> signals[k] == k
      invariant budget.Valid() && budget.spent == old(budget.spent) + (room - left)
      invariant Owed(p, room, left, replies, attempt)
      invariant forall k :: 0 <= k < calls ==> replies(k).quota
      decreases left
    {
      var result := replies(calls);
      var wait := PlanFor(p, result, attempt);
      OwedStep(p, room, left, replies, attempt, wait);
      calls := calls + 1;
      if !result.quota {
        if attempt > 0 {
          resumed := Some(attempt);
        }
        return Answered, calls, signals, resumed;
      }
      var ok := budget.Charge(wait);
      if !ok {
        return TimedOut, calls, signals, resumed;
      }
      signals := signals + [attempt];
      budget.Sleep(wait);
      left := left - wait;
      attempt := attempt + 1;
    }
  }

  /** What the runners of one run wait in all, one episode after another from number i on: a time-out ends the run. */
  function TotalPaid(p: Policy, room: nat, episodes: seq<nat -> Reply>, i: nat): (total: nat)
    requires Configured(p) && i <= |episodes|
    ensures total <= room
    decreases |episodes| - i
  {
    if i == |episodes| then 0
    else
      var paid := Paid(p, room, episodes[i], 0);
      if episodes[i](Waits(p, room, episodes[i], 0)).quota then paid else paid + TotalPaid(p, room - paid, episodes, i + 1)
  }

  method RunOne(budget: Budget, p: Policy, replies: nat -> Reply, ghost paid: nat, ghost waits: nat) returns (end: Ended)
    requires budget.Valid() && Configured(p)
    requires paid == Paid(p, budget.limit - budget.spent, replies, 0) && waits == Waits(p, budget.limit - budget.spent, replies, 0)
    modifies budget
    ensures budget.Valid() && budget.spent == old(budget.spent) + paid
    ensures end == TimedOut <==> replies(waits).quota
  {
    var calls, signals, resumed;
    end, calls, signals, resumed := Run(budget, p, replies);
  }

  /** Any number of runners, one budget: the time slept is the time spent, and within the limit. */
  method RunAll(limit: nat, p: Policy, episodes: seq<nat -> Reply>) returns (slept: nat)
    requires Configured(p)
    ensures slept == TotalPaid(p, limit, episodes, 0) <= limit
  {
    var budget := new Budget(limit);
    ghost var total, room := TotalPaid(p, limit, episodes, 0), limit;
    for i := 0 to |episodes|
      invariant budget.Valid() && budget.limit == limit && budget.spent == limit - room
      invariant total == limit - room + TotalPaid(p, room, episodes, i)
    {
      ghost var paid, waits := Paid(p, room, episodes[i], 0), Waits(p, room, episodes[i], 0);
      var end := RunOne(budget, p, episodes[i], paid, waits);
      room := room - paid;
      if end == TimedOut {
        return budget.slept;
      }
    }
    slept := budget.slept;
  }
}

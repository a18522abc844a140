/** Properties of the job lifecycle: what each transition preserves, and
    what any sequence of `activate`/`expire` calls can and cannot do. */
module Lifecycle {
  import opened Sites
  import opened Jobs

  /** A second activation never fires and changes nothing. */
  lemma ActivateTwiceIsNoOp(j: Job, first: int, second: int)
    ensures Activate(Activate(j, first).job, second) == Transition(false, Activate(j, first).job, [])
  {
  }

  /** Expiring a job twice fires at most once: the second call sends nothing
      and leaves the job as the first call left it. */
  lemma ExpireTwiceIsNoOp(j: Job, first: int, second: int, configs: seq<SiteConfig>)
    requires IsActive(j) ==> HasConfigFor(configs, j.site.id)
    ensures var e := Expire(j, first, configs);
            Expire(e.job, second, configs) == Transition(false, e.job, [])
  {
  }

  /** `activate` keeps the invariant, never clears or overwrites a
      timestamp, and moves an unpaid job to Paid and nothing else. */
  lemma ActivateStep(j: Job, now: int)
    requires Wf(j)
    ensures Wf(Activate(j, now).job)
    ensures j.paidAt.Some? ==> Activate(j, now).job.paidAt == j.paidAt
    ensures Activate(j, now).job.expiredAt == j.expiredAt
    ensures StageOf(Activate(j, now).job) == (if StageOf(j) == Unpaid then Paid else StageOf(j))
  {
  }

  /** `expire` keeps the invariant, never clears or overwrites a timestamp,
      and moves a paid job to Expired and nothing else. */
  lemma ExpireStep(j: Job, now: int, configs: seq<SiteConfig>)
    requires Wf(j)
    requires IsActive(j) ==> HasConfigFor(configs, j.site.id)
    ensures Wf(Expire(j, now, configs).job)
    ensures Expire(j, now, configs).job.paidAt == j.paidAt
    ensures j.expiredAt.Some? ==> Expire(j, now, configs).job.expiredAt == j.expiredAt
    ensures StageOf(Expire(j, now, configs).job) == (if StageOf(j) == Paid then Expired else StageOf(j))
  {
  }

  /** An external caller's request: activate or expire at a given time. */
  datatype Call = ActivateAt(now: int) | ExpireAt(now: int)

  /** Applies one call. The site's configuration must exist, since an
      expiry may need it. */
  function Apply(j: Job, c: Call, configs: seq<SiteConfig>): (t: Transition)
    requires HasConfigFor(configs, j.site.id)
    ensures t.job.site == j.site && t.job.createdAt == j.createdAt
  {
    match c
    case ActivateAt(now) => Activate(j, now)
    case ExpireAt(now) => Expire(j, now, configs)
  }

  /** Applies the calls in order; returns the final job and every
      notification sent along the way. */
  function Run(j: Job, calls: seq<Call>, configs: seq<SiteConfig>): (Job, seq<Notification>)
    requires HasConfigFor(configs, j.site.id)
    decreases |calls|
  {
    if |calls| == 0 then (j, [])
    else
      var t := Apply(j, calls[0], configs);
      var (last, sent) := Run(t.job, calls[1..], configs);
      (last, t.sent + sent)
  }

  /** Whatever the calls, a well-formed job stays well-formed, its stage
      only moves forward along Unpaid, Paid, Expired, a timestamp once set
      is kept, and exactly one notification is sent if and only if the run
      is the one that expired the job. */
  lemma {:induction false} RunLifecycle(j: Job, calls: seq<Call>, configs: seq<SiteConfig>)
    requires Wf(j)
    requires HasConfigFor(configs, j.site.id)
    ensures Wf(Run(j, calls, configs).0)
    ensures Rank(StageOf(j)) <= Rank(StageOf(Run(j, calls, configs).0))
    ensures j.paidAt.Some? ==> Run(j, calls, configs).0.paidAt == j.paidAt
    ensures j.expiredAt.Some? ==> Run(j, calls, configs).0.expiredAt == j.expiredAt
    ensures |Run(j, calls, configs).1| ==
            (if StageOf(j) != Expired && StageOf(Run(j, calls, configs).0) == Expired then 1 else 0)
    decreases |calls|
  {
    if |calls| > 0 {
      var t := Apply(j, calls[0], configs);
      match calls[0] {
        case ActivateAt(now) => ActivateStep(j, now);
        case ExpireAt(now) => ExpireStep(j, now, configs);
      }
      RunLifecycle(t.job, calls[1..], configs);
    }
  }

  /** Timestamps in lifecycle order: created, then paid, then expired. */
  predicate Chronological(j: Job) {
    && (j.paidAt.Some? ==> j.createdAt <= j.paidAt.value)
    && (j.expiredAt.Some? ==> j.paidAt.Some? && j.paidAt.value <= j.expiredAt.value)
  }

  /** The most recent timestamp a job carries. */
  function Latest(j: Job): int {
    if j.expiredAt.Some? then j.expiredAt.value
    else if j.paidAt.Some? then j.paidAt.value
    else j.createdAt
  }

  /** Calls arrive with a clock that never goes backwards and never goes
      behind `t0`. */
  predicate ClockFrom(t0: int, calls: seq<Call>) {
    && (forall i :: 0 <= i < |calls| ==> t0 <= calls[i].now)
    && (forall i, k :: 0 <= i <= k < |calls| ==> calls[i].now <= calls[k].now)
  }

  /** With a clock that does not run backwards, the recorded timestamps stay
      in lifecycle order whatever the calls. */
  lemma {:induction false} RunChronological(j: Job, calls: seq<Call>, configs: seq<SiteConfig>)
    requires Chronological(j)
    requires HasConfigFor(configs, j.site.id)
    requires ClockFrom(Latest(j), calls)
    ensures Chronological(Run(j, calls, configs).0)
    ensures Latest(j) <= Latest(Run(j, calls, configs).0)
    decreases |calls|
  {
    if |calls| > 0 {
      var t := Apply(j, calls[0], configs);
      assert Chronological(t.job) && Latest(j) <= Latest(t.job) <= calls[0].now;
      assert ClockFrom(Latest(t.job), calls[1..]) by {
        forall i | 0 <= i < |calls[1..]|
          ensures Latest(t.job) <= calls[1..][i].now
        {
          assert calls[1..][i] == calls[i + 1];
        }
      }
      RunChronological(t.job, calls[1..], configs);
    }
  }
}

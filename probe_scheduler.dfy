/**
 * The probe scheduler's reconciliation pass. The Quartz scheduler is a map
 * from job key to the scheduled job; a pass adds a job for every enabled
 * check of every enabled domain whose key is not yet present, and never
 * removes or reschedules one.
 */
module ProbeScheduler {
  import opened Common
  import opened Text
  import opened Entities
  import opened Store
  import ProbeJob

  const MinuteMs: int := 60_000

  /** A job and its simple trigger: first fire at `startAt`, then every `intervalMs`, forever. */
  datatype ScheduledJob = ScheduledJob(data: ProbeJob.JobData, startAt: Instant, intervalMs: int)

  /** The jobs after a pass, and whether the pass ran to the end. */
  datatype Outcome = Outcome(jobs: map<string, ScheduledJob>, ok: bool)

  /** `probe-{domainId}-{checkType}` (group "probes"). */
  function JobKey(domainId: Id, checkType: string): (key: string)
    ensures |key| > |"probe-"| && key[..|"probe-"|] == "probe-"
  {
    "probe-" + NatToString(domainId) + "-" + checkType
  }

  /** Distinct (domain, check type) pairs get distinct keys. */
  lemma JobKeyInjective(d1: Id, t1: string, d2: Id, t2: string)
    requires JobKey(d1, t1) == JobKey(d2, t2)
    ensures d1 == d2 && t1 == t2
  {
    var p := "probe-";
    var a, b := NatToString(d1), NatToString(d2);
    assert JobKey(d1, t1) == p + (a + ['-'] + t1);
    assert JobKey(d2, t2) == p + (b + ['-'] + t2);
    assert a + ['-'] + t1 == JobKey(d1, t1)[|p|..];
    assert '-' !in a && '-' !in b;
    SplitAtFirst(a, b, '-', t1, t2);
    NatToStringInjective(d1, d2);
  }

  /** The job a pass creates for a work item at time `now`. */
  function NewJob(w: WorkItem, now: Instant): (job: ScheduledJob)
    ensures job.data.domainId == w.domain.id && job.data.domainName == w.domain.name
    ensures job.data.checkId == w.check.id && job.data.checkType == w.check.checkType
    ensures job.startAt == now
    ensures job.intervalMs == w.domain.intervalMinutes * MinuteMs
    ensures job.intervalMs >= 1 <==> w.domain.intervalMinutes >= 1
  {
    ScheduledJob(ProbeJob.JobData(w.domain.id, w.domain.name, w.check.id, w.check.checkType), now,
                 w.domain.intervalMinutes * MinuteMs)
  }

  function KeyOf(w: WorkItem): string {
    JobKey(w.domain.id, w.check.checkType)
  }

  /** The Quartz scheduler's job store. */
  class Scheduler {
    var jobs: map<string, ScheduledJob>

    constructor ()
      ensures jobs == map[]
    {
      jobs := map[];
    }

    /** `CheckExists`. */
    function CheckExists(key: string): (b: bool)
      reads this
      ensures b <==> key in jobs
    {
      key in jobs
    }

    /** `ScheduleJob`: refused (an exception) for a duplicate key or a repeat
        interval below one millisecond; otherwise the job is stored. */
    method ScheduleJob(key: string, job: ScheduledJob) returns (ok: bool)
      modifies this
      ensures ok <==> key !in old(jobs) && job.intervalMs >= 1
      ensures jobs == if ok then old(jobs)[key := job] else old(jobs)
    {
      if key in jobs || job.intervalMs < 1 {
        return false;
      }
      jobs := jobs[key := job];
      return true;
    }
  }

  /** What a pass over `work` does to `jobs`: present keys are skipped, an
      invalid interval ends the pass with the jobs added so far. */
  function Reconcile(jobs: map<string, ScheduledJob>, work: seq<WorkItem>, now: Instant): (r: Outcome)
    ensures jobs.Keys <= r.jobs.Keys
    decreases |work|
  {
    if |work| == 0 then Outcome(jobs, true)
    else
      var w := work[0];
      if KeyOf(w) in jobs then Reconcile(jobs, work[1..], now)
      else if w.domain.intervalMinutes < 1 then Outcome(jobs, false)
      else Reconcile(jobs[KeyOf(w) := NewJob(w, now)], work[1..], now)
  }

  /** A job already present is never changed, and none is removed. */
  lemma {:induction false} ReconcileKeepsExisting(jobs: map<string, ScheduledJob>, work: seq<WorkItem>, now: Instant)
    ensures var r := Reconcile(jobs, work, now).jobs;
      forall k :: k in jobs ==> k in r && r[k] == jobs[k]
    decreases |work|
  {
    if |work| > 0 {
      var w := work[0];
      if KeyOf(w) in jobs {
        ReconcileKeepsExisting(jobs, work[1..], now);
      } else if w.domain.intervalMinutes >= 1 {
        ReconcileKeepsExisting(jobs[KeyOf(w) := NewJob(w, now)], work[1..], now);
      }
    }
  }

  /** A pass that runs to the end leaves a job for every work item. */
  lemma {:induction false} ReconcileCovers(jobs: map<string, ScheduledJob>, work: seq<WorkItem>, now: Instant)
    ensures var r := Reconcile(jobs, work, now);
      r.ok ==> forall w :: w in work ==> KeyOf(w) in r.jobs
    decreases |work|
  {
    if |work| > 0 {
      var w := work[0];
      var next := if KeyOf(w) in jobs then jobs else jobs[KeyOf(w) := NewJob(w, now)];
      if KeyOf(w) in jobs || w.domain.intervalMinutes >= 1 {
        ReconcileCovers(next, work[1..], now);
        ReconcileKeepsExisting(next, work[1..], now);
        assert forall v :: v in work ==> v == w || v in work[1..];
      }
    }
  }

  /** Every key a pass adds belongs to a work item, and its job is that item's
      new job: first fire at `now`, repeating every interval of its domain. */
  lemma {:induction false} ReconcileAddsNewJobs(jobs: map<string, ScheduledJob>, work: seq<WorkItem>, now: Instant)
    ensures var r := Reconcile(jobs, work, now).jobs;
      forall k :: k in r && k !in jobs ==>
        exists w :: w in work && KeyOf(w) == k && r[k] == NewJob(w, now) && w.domain.intervalMinutes >= 1
    decreases |work|
  {
    if |work| > 0 {
      var w := work[0];
      assert forall v :: v in work[1..] ==> v in work;
      if KeyOf(w) in jobs {
        ReconcileAddsNewJobs(jobs, work[1..], now);
      } else if w.domain.intervalMinutes >= 1 {
        var next := jobs[KeyOf(w) := NewJob(w, now)];
        ReconcileAddsNewJobs(next, work[1..], now);
        ReconcileKeepsExisting(next, work[1..], now);
      }
    }
  }

  /** A pass ends early only at an item whose domain interval is under one
      minute and whose key was not yet scheduled. */
  lemma {:induction false} ReconcileAbortsOnBadInterval(jobs: map<string, ScheduledJob>, work: seq<WorkItem>,
                                                        now: Instant)
    ensures !Reconcile(jobs, work, now).ok ==>
      exists w :: w in work && w.domain.intervalMinutes < 1 && KeyOf(w) !in jobs
    decreases |work|
  {
    if |work| > 0 {
      var w := work[0];
      var next := if KeyOf(w) in jobs then jobs else jobs[KeyOf(w) := NewJob(w, now)];
      if KeyOf(w) in jobs || w.domain.intervalMinutes >= 1 {
        ReconcileAbortsOnBadInterval(next, work[1..], now);
        assert forall v :: v in work[1..] ==> v in work;
      }
    }
  }

  /** Over jobs that already cover every item, a pass changes nothing. */
  lemma {:induction false} CoveredPassIsNoop(jobs: map<string, ScheduledJob>, work: seq<WorkItem>, now: Instant)
    requires forall w :: w in work ==> KeyOf(w) in jobs
    ensures Reconcile(jobs, work, now) == Outcome(jobs, true)
    decreases |work|
  {
    if |work| > 0 {
      assert work[0] in work;
      assert forall v :: v in work[1..] ==> v in work;
      CoveredPassIsNoop(jobs, work[1..], now);
    }
  }

  /** A second pass over the same configuration, at any time, adds nothing. */
  lemma ReconcileIdempotent(jobs: map<string, ScheduledJob>, work: seq<WorkItem>, now: Instant, later: Instant)
    requires Reconcile(jobs, work, now).ok
    ensures var r := Reconcile(jobs, work, now);
      Reconcile(r.jobs, work, later) == r
  {
    ReconcileCovers(jobs, work, now);
    CoveredPassIsNoop(Reconcile(jobs, work, now).jobs, work, later);
  }

  /** Only enabled checks of enabled domains get new jobs. */
  lemma NewJobsAreEnabled(jobs: map<string, ScheduledJob>, domains: seq<Domain>, checks: seq<Check>, now: Instant)
    ensures var r := Reconcile(jobs, EnabledWork(domains, checks), now).jobs;
      forall k :: k in r && k !in jobs ==>
        exists d, c :: d in domains && d.enabled && c in checks && c.enabled && c.domainId == d.id
                       && k == JobKey(d.id, c.checkType)
  {
    var work := EnabledWork(domains, checks);
    ReconcileAddsNewJobs(jobs, work, now);
    var r := Reconcile(jobs, work, now).jobs;
    forall k | k in r && k !in jobs
      ensures exists d, c :: d in domains && d.enabled && c in checks && c.enabled && c.domainId == d.id
                             && k == JobKey(d.id, c.checkType)
    {
      var w :| w in work && KeyOf(w) == k && r[k] == NewJob(w, now) && w.domain.intervalMinutes >= 1;
      assert w.check in EnabledChecksOf(checks, w.domain.id);
    }
  }

  /** `ScheduleAllDomainsAsync`: one pass over the enabled checks of the
      enabled domains, in the order of the nested loops. */
  method ScheduleAllDomains(s: Scheduler, db: Database, now: Instant) returns (ok: bool)
    modifies s
    ensures Outcome(s.jobs, ok) == Reconcile(old(s.jobs), EnabledWork(db.domains, db.checks), now)
  {
    var work := EnabledWork(db.domains, db.checks);
    for i := 0 to |work|
      invariant Reconcile(s.jobs, work[i..], now) == Reconcile(old(s.jobs), work, now)
    {
      var w := work[i];
      assert work[i..][1..] == work[i + 1..];
      var key := JobKey(w.domain.id, w.check.checkType);
      if s.CheckExists(key) {
        continue;
      }
      var added := s.ScheduleJob(key, NewJob(w, now));
      if !added {
        return false;
      }
    }
    assert work[|work|..] == [];
    return true;
  }
}

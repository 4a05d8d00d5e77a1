/**
 * The manual worker: one pass runs every enabled check of every enabled
 * domain through the probe executor, which dispatches on the upper-cased
 * check type and stores one run per known type. Incidents are not touched.
 *
 * All probes of a pass share one database context. A run the executor adds
 * stays in the context's change tracker until a save succeeds, so a failed
 * save delays the run to the next successful save of the same pass, and the
 * runs still pending when the pass ends are dropped with the context.
 */
module ManualWorker {
  import opened Common
  import opened Text
  import opened Network
  import opened ProbeResults
  import opened Entities
  import opened Store
  import ProbeJob

  /** The database context of one pass: the tables and the rows added but not yet saved. */
  class Context {
    const db: Database
    var added: seq<ProbeRun>

    constructor (db: Database)
      ensures this.db == db && added == []
    {
      this.db := db;
      added := [];
    }
  }

  /** The run `ExecuteProbeAsync` adds: the probe of the upper-cased type, with
      the check type stored as given; nothing for an unknown type. */
  function ExecutorRun(domainId: Id, name: string, checkId: Id, checkType: string, env: Env): (run: Option<ProbeRun>)
    ensures run.Some? <==> IsKnownCheckType(ToUpper(checkType))
    ensures run.Some? ==> run.value.checkType == checkType && run.value.domainId == domainId
                          && run.value.checkId == checkId
  {
    match ProbeJob.RunProbe(ToUpper(checkType), name, env)
    case None => None
    case Some(result) =>
      Some(ProbeJob.RunRecord(ProbeJob.JobData(domainId, name, checkId, checkType), result, env.startedAt, env.completedAt))
  }

  /** Two check types that differ only in letter case store the same run,
      apart from the check type each keeps as given. */
  lemma DispatchIgnoresCase(domainId: Id, name: string, checkId: Id, type1: string, type2: string, env: Env)
    requires ToUpper(type1) == ToUpper(type2) && IsKnownCheckType(ToUpper(type1))
    ensures ExecutorRun(domainId, name, checkId, type1, env).value
         == ExecutorRun(domainId, name, checkId, type2, env).value.(checkType := type1)
  {
  }

  /** A check type known only once upper-cased is probed here and ignored by
      the scheduled job. */
  lemma CaseOnlyKnownHere(domainId: Id, name: string, checkId: Id, env: Env, checkType: string)
    requires IsKnownCheckType(ToUpper(checkType)) && !IsKnownCheckType(checkType)
    ensures ExecutorRun(domainId, name, checkId, checkType, env).Some?
    ensures ProbeJob.RunProbe(checkType, name, env).None?
  {
  }

  /** "dns" is such a check type. */
  lemma LowerCaseDnsRuns()
    ensures IsKnownCheckType(ToUpper("dns")) && !IsKnownCheckType("dns")
  {
    assert ToUpper("dns") == DNS;
  }

  /** What adding `run` and then saving (or failing to) does to the stored runs
      and to the pending ones; no run means no save is attempted. */
  function Track(stored: seq<ProbeRun>, pending: seq<ProbeRun>, run: Option<ProbeRun>, saveSucceeds: bool)
    : (r: (seq<ProbeRun>, seq<ProbeRun>))
    ensures run.None? ==> r == (stored, pending)
    ensures run.Some? && saveSucceeds ==> r == (stored + pending + [run.value], [])
    ensures run.Some? && !saveSucceeds ==> r == (stored, pending + [run.value])
  {
    match run
    case None => (stored, pending)
    case Some(x) => if saveSucceeds then (stored + pending + [x], []) else (stored, pending + [x])
  }

  /** `ExecuteProbeAsync`: probe, add the run to the context, save. A failed
      save (an exception to the caller) leaves the run pending in the context. */
  method ExecuteProbe(ctx: Context, domainId: Id, name: string, checkId: Id, checkType: string, env: Env,
                      saveSucceeds: bool)
    returns (threw: bool)
    modifies ctx, ctx.db
    ensures var run := ExecutorRun(domainId, name, checkId, checkType, env);
      && (ctx.db.probeRuns, ctx.added) == Track(old(ctx.db.probeRuns), old(ctx.added), run, saveSucceeds)
      && threw == (run.Some? && !saveSucceeds)
    ensures ctx.db.domains == old(ctx.db.domains) && ctx.db.checks == old(ctx.db.checks)
    ensures ctx.db.incidents == old(ctx.db.incidents) && ctx.db.groups == old(ctx.db.groups)
    ensures ctx.db.notifications == old(ctx.db.notifications) && ctx.db.attempts == old(ctx.db.attempts)
  {
    ghost var expected := ExecutorRun(domainId, name, checkId, checkType, env);
    var job := ProbeJob.JobData(domainId, name, checkId, checkType);
    var result := ProbeJob.Probe(ToUpper(checkType), name, env);
    if result.None? {
      assert expected.None?;
      return false;
    }
    var run := ProbeJob.BuildRun(job, result.value, env.startedAt, env.completedAt);
    assert expected == Some(run);
    ctx.added := ctx.added + [run];
    if !saveSucceeds {
      return true;
    }
    ctx.db.probeRuns := ctx.db.probeRuns + ctx.added;
    assert ctx.db.probeRuns == old(ctx.db.probeRuns) + old(ctx.added) + [run];
    ctx.added := [];
    return false;
  }

  /** What each work item of a pass adds: the executor's run for it, or nothing. */
  function Attempts(work: seq<WorkItem>, envOf: nat -> Env): (a: seq<Option<ProbeRun>>)
    ensures |a| == |work|
    ensures forall k :: 0 <= k < |work| ==>
      a[k] == ExecutorRun(work[k].domain.id, work[k].domain.name, work[k].check.id, work[k].check.checkType, envOf(k))
  {
    seq(|work|, k requires 0 <= k < |work| =>
      ExecutorRun(work[k].domain.id, work[k].domain.name, work[k].check.id, work[k].check.checkType, envOf(k)))
  }

  /** The stored runs after the first `n` attempts of a pass that started with
      `stored0`, and the runs still pending. */
  function Pass(attempts: seq<Option<ProbeRun>>, saveOk: nat -> bool, stored0: seq<ProbeRun>, n: nat)
    : (r: (seq<ProbeRun>, seq<ProbeRun>))
    requires n <= |attempts|
    ensures |stored0| <= |r.0|
    ensures |r.0| + |r.1| <= |stored0| + n
  {
    if n == 0 then (stored0, [])
    else
      var (stored, pending) := Pass(attempts, saveOk, stored0, n - 1);
      Track(stored, pending, attempts[n - 1], saveOk(n - 1))
  }

  /** The runs of the first `n` attempts, in order, whatever the saves did. */
  function Executed(attempts: seq<Option<ProbeRun>>, n: nat): (runs: seq<ProbeRun>)
    requires n <= |attempts|
    ensures |runs| <= n
  {
    if n == 0 then []
    else Executed(attempts, n - 1) + if attempts[n - 1].Some? then [attempts[n - 1].value] else []
  }

  /** A failed save does not stop the pass: every item is executed, and each run
      is either stored or still pending, in execution order. */
  lemma {:induction false} FailedSaveDoesNotStopPass(attempts: seq<Option<ProbeRun>>, saveOk: nat -> bool,
                                                     stored0: seq<ProbeRun>, n: nat)
    requires n <= |attempts|
    ensures var (stored, pending) := Pass(attempts, saveOk, stored0, n);
      stored + pending == stored0 + Executed(attempts, n)
  {
    if n > 0 {
      FailedSaveDoesNotStopPass(attempts, saveOk, stored0, n - 1);
      var (stored, pending) := Pass(attempts, saveOk, stored0, n - 1);
      var before := Executed(attempts, n - 1);
      if attempts[n - 1].None? {
        assert Executed(attempts, n) == before + [];
      } else {
        var x := attempts[n - 1].value;
        assert Executed(attempts, n) == before + [x];
        assert stored + (pending + [x]) == stored + pending + [x];
        assert stored + pending + [x] + [] == stored + pending + [x];
        assert stored0 + (before + [x]) == stored0 + before + [x];
      }
    }
  }

  /** When the last save of the pass succeeds, nothing is left pending, so
      every executed run is stored. */
  lemma LastSaveStoresAll(attempts: seq<Option<ProbeRun>>, saveOk: nat -> bool, stored0: seq<ProbeRun>, n: nat)
    requires 0 < n <= |attempts| && saveOk(n - 1) && attempts[n - 1].Some?
    ensures Pass(attempts, saveOk, stored0, n).0 == stored0 + Executed(attempts, n)
  {
    FailedSaveDoesNotStopPass(attempts, saveOk, stored0, n);
    assert Pass(attempts, saveOk, stored0, n).1 == [];
    assert Pass(attempts, saveOk, stored0, n).0 + [] == Pass(attempts, saveOk, stored0, n).0;
  }

  /** When every save succeeds, no run is ever pending and each is stored in
      execution order. */
  lemma {:induction false} SavedPassStoresAll(attempts: seq<Option<ProbeRun>>, saveOk: nat -> bool,
                                              stored0: seq<ProbeRun>, n: nat)
    requires n <= |attempts|
    requires forall k :: 0 <= k < n ==> saveOk(k)
    ensures Pass(attempts, saveOk, stored0, n) == (stored0 + Executed(attempts, n), [])
  {
    if n > 0 {
      SavedPassStoresAll(attempts, saveOk, stored0, n - 1);
      var before := Executed(attempts, n - 1);
      assert Pass(attempts, saveOk, stored0, n) == Track(stored0 + before, [], attempts[n - 1], true);
      if attempts[n - 1].None? {
        assert Executed(attempts, n) == before + [];
        assert stored0 + (before + []) == stored0 + before;
      } else {
        var x := attempts[n - 1].value;
        assert Executed(attempts, n) == before + [x];
        assert stored0 + before + [] + [x] == stored0 + (before + [x]);
      }
    } else {
      assert stored0 + [] == stored0;
    }
  }

  /** The stored runs only grow: a pass never removes or changes a stored run. */
  lemma {:induction false} PassOnlyAppends(attempts: seq<Option<ProbeRun>>, saveOk: nat -> bool,
                                           stored0: seq<ProbeRun>, n: nat)
    requires n <= |attempts|
    ensures var stored := Pass(attempts, saveOk, stored0, n).0;
      |stored0| <= |stored| && stored[..|stored0|] == stored0
  {
    if n > 0 {
      PassOnlyAppends(attempts, saveOk, stored0, n - 1);
      var (stored, pending) := Pass(attempts, saveOk, stored0, n - 1);
      if attempts[n - 1].Some? && saveOk(n - 1) {
        assert (stored + pending + [attempts[n - 1].value])[..|stored0|] == stored[..|stored0|];
      }
    }
  }

  /** Every executed run is the run of one of the attempts. */
  lemma {:induction false} ExecutedFromAttempts(attempts: seq<Option<ProbeRun>>, n: nat)
    requires n <= |attempts|
    ensures forall x :: x in Executed(attempts, n) ==> exists k :: 0 <= k < n && attempts[k] == Some(x)
  {
    if n > 0 {
      ExecutedFromAttempts(attempts, n - 1);
    }
  }

  /** The run carries the ids and type of an enabled check of an enabled domain. */
  predicate OfEnabledCheck(domains: seq<Domain>, checks: seq<Check>, x: ProbeRun) {
    exists d, c :: d in domains && d.enabled && c in checks && c.enabled && c.domainId == d.id && x.domainId == d.id
                   && x.checkId == c.id && x.checkType == c.checkType
  }

  /** Every run a pass executes belongs to an enabled check of an enabled domain
      and carries that check's id and type. */
  lemma RunsComeFromEnabledChecks(domains: seq<Domain>, checks: seq<Check>, envOf: nat -> Env)
    ensures var work := EnabledWork(domains, checks);
      forall x :: x in Executed(Attempts(work, envOf), |work|) ==> OfEnabledCheck(domains, checks, x)
  {
    var work := EnabledWork(domains, checks);
    var attempts := Attempts(work, envOf);
    ExecutedFromAttempts(attempts, |work|);
    forall x | x in Executed(attempts, |work|)
      ensures OfEnabledCheck(domains, checks, x)
    {
      var k :| 0 <= k < |work| && attempts[k] == Some(x);
      var w := work[k];
      assert w in work;
      assert w.check in EnabledChecksOf(checks, w.domain.id);
    }
  }

  /** `ProcessEnabledDomainsAsync`: one pass over the enabled work in a fresh
      context; `saveOk(k)` says whether the save of the `k`-th probe succeeds. */
  method ProcessEnabledDomains(db: Database, envOf: nat -> Env, saveOk: nat -> bool)
    modifies db
    ensures var work := EnabledWork(old(db.domains), old(db.checks));
      db.probeRuns == Pass(Attempts(work, envOf), saveOk, old(db.probeRuns), |work|).0
    ensures db.domains == old(db.domains) && db.checks == old(db.checks) && db.incidents == old(db.incidents)
    ensures db.groups == old(db.groups) && db.notifications == old(db.notifications) && db.attempts == old(db.attempts)
  {
    var work := EnabledWork(db.domains, db.checks);
    ghost var attempts := Attempts(work, envOf);
    var ctx := new Context(db);
    for k := 0 to |work|
      invariant ctx.db == db
      invariant (db.probeRuns, ctx.added) == Pass(attempts, saveOk, old(db.probeRuns), k)
      invariant db.domains == old(db.domains) && db.checks == old(db.checks) && db.incidents == old(db.incidents)
      invariant db.groups == old(db.groups) && db.notifications == old(db.notifications)
      invariant db.attempts == old(db.attempts)
    {
      var w := work[k];
      var _ := ExecuteProbe(ctx, w.domain.id, w.domain.name, w.check.id, w.check.checkType, envOf(k), saveOk(k));
    }
  }
}

/**
 * The Quartz probe job: run the probe a job's data names, store the run, and
 * open or resolve the incident of its (domain, check type) pair. The dispatch
 * and the run record are shared with the manual worker's executor.
 */
module ProbeJob {
  import opened Common
  import opened Text
  import opened Network
  import opened ProbeResults
  import opened Entities
  import opened Store
  import DnsProbe
  import TlsProbe
  import HttpProbe

  /** The job data the scheduler attaches to a job (`DomainId`, `DomainName`, `CheckId`, `CheckType`). */
  datatype JobData = JobData(domainId: Id, domainName: string, checkId: Id, checkType: string)

  // Dispatch.

  /** The URL the HTTP probe is given: the name itself when it already starts
      with "http", otherwise the name behind "https://". */
  function HttpTarget(name: string): string {
    if StartsWith(name, "http") then name else "https://" + name
  }

  /** The HTTP target always starts with "http" and ends with the whole name;
      it is the name itself exactly when the name already starts with "http". */
  lemma HttpTargetShape(name: string)
    ensures var t := HttpTarget(name);
      && StartsWith(t, "http")
      && |name| <= |t| && t[|t| - |name|..] == name
      && (t == name <==> StartsWith(name, "http"))
  {
    if !StartsWith(name, "http") {
      var t := "https://" + name;
      assert t[..4] == "http";
      assert |t| != |name|;
    }
  }

  /** The result of the runner `dispatch` selects, or nothing for an unknown type. */
  function RunProbe(dispatch: string, name: string, env: Env): (r: Option<ProbeResult>)
    ensures r.Some? <==> IsKnownCheckType(dispatch)
    ensures r.Some? ==> (r.value.Dns? <==> dispatch == DNS) && (r.value.Tls? <==> dispatch == TLS)
                        && (r.value.Http? <==> dispatch == HTTP)
    ensures r.Some? ==> r.value.DurationMs() == env.elapsedMs
  {
    if dispatch == DNS then Some(Dns(DnsProbe.Resolution(name, env.dnsQuery, env.elapsedMs)))
    else if dispatch == TLS then Some(Tls(TlsProbe.CertificateCheck(env.tlsConnect(name), env.localNow, env.elapsedMs)))
    else if dispatch == HTTP then
      Some(Http(HttpProbe.UrlCheck(env.httpSend(HttpProbe.NormalizeUrl(HttpTarget(name))), env.elapsedMs)))
    else None
  }

  /** The `switch` on the check type: call the matching runner. */
  method Probe(dispatch: string, name: string, env: Env) returns (result: Option<ProbeResult>)
    ensures result == RunProbe(dispatch, name, env)
  {
    if dispatch == DNS {
      var dns := DnsProbe.Resolve(name, env.dnsQuery, env.elapsedMs);
      result := Some(Dns(dns));
    } else if dispatch == TLS {
      var tls := TlsProbe.CheckCertificate(name, env.tlsConnect, env.localNow, env.elapsedMs);
      result := Some(Tls(tls));
    } else if dispatch == HTTP {
      var url := HttpTarget(name);
      var http := HttpProbe.CheckUrl(url, env.httpSend, env.elapsedMs);
      result := Some(Http(http));
    } else {
      result := None;
    }
  }

  // The run record.

  /** The stored run: the common fields copied from the result, and the
      fields of exactly the result's own kind. */
  function RunRecord(job: JobData, result: ProbeResult, startedAt: Instant, completedAt: Instant): (run: ProbeRun)
    ensures run.domainId == job.domainId && run.checkId == job.checkId && run.checkType == job.checkType
    ensures run.success == result.Success() && run.errorCode == result.ErrorCode()
    ensures run.errorMessage == result.ErrorMessage() && run.totalMs == result.DurationMs()
    ensures run.startedAt == startedAt && run.completedAt == completedAt
    ensures run.dnsMs.Some? <==> result.Dns?
    ensures run.tlsMs.Some? <==> result.Tls?
    ensures run.recordsSnapshot.Some? ==> result.Dns? && run.recordsSnapshot == result.dns.recordsSnapshot
    ensures run.certificateInfo.Some? ==> result.Tls? && run.certificateInfo == result.tls.certificateInfo
    ensures run.ttfbMs.Some? || run.statusCode.Some? ==> result.Http?
    ensures result.Http? ==> run.ttfbMs == result.http.ttfbMs && run.statusCode == result.http.statusCode
    ensures run.dnsMs.Some? ==> run.dnsMs == Some(run.totalMs)
    ensures run.tlsMs.Some? ==> run.tlsMs == Some(run.totalMs)
  {
    var base := ProbeRun(job.domainId, job.checkId, job.checkType, result.Success(), result.ErrorCode(),
                         result.ErrorMessage(), None, None, None, result.DurationMs(), None, None, None,
                         startedAt, completedAt);
    match result
    case Dns(r) => base.(dnsMs := Some(result.DurationMs()), recordsSnapshot := r.recordsSnapshot)
    case Tls(r) => base.(tlsMs := Some(result.DurationMs()), certificateInfo := r.certificateInfo)
    case Http(r) => base.(ttfbMs := r.ttfbMs, statusCode := r.statusCode)
  }

  /** The run record, built as the job builds it: the common fields, then the type-specific ones. */
  method BuildRun(job: JobData, result: ProbeResult, startedAt: Instant, completedAt: Instant) returns (run: ProbeRun)
    ensures run == RunRecord(job, result, startedAt, completedAt)
  {
    run := ProbeRun(job.domainId, job.checkId, job.checkType, result.Success(), result.ErrorCode(),
                    result.ErrorMessage(), None, None, None, result.DurationMs(), None, None, None,
                    startedAt, completedAt);
    if result.Dns? {
      run := run.(dnsMs := Some(result.DurationMs()));
      run := run.(recordsSnapshot := result.dns.recordsSnapshot);
    } else if result.Tls? {
      run := run.(tlsMs := Some(result.DurationMs()));
      run := run.(certificateInfo := result.tls.certificateInfo);
    } else {
      run := run.(ttfbMs := result.http.ttfbMs);
      run := run.(statusCode := result.http.statusCode);
    }
  }

  // Severity and the incident rules.

  /** `DetermineSeverity`: the first matching rule of four. */
  function Severity(checkType: string, result: ProbeResult): (s: string)
    ensures s in {SEVERITY_HIGH, SEVERITY_MEDIUM, SEVERITY_LOW}
    ensures checkType != TLS && checkType != HTTP ==> s != SEVERITY_HIGH
  {
    if checkType == TLS && result.ErrorCode() == Some("INVALID_CERTIFICATE") then SEVERITY_HIGH
    else if checkType == HTTP && result.Http? && result.http.statusCode.Some? && result.http.statusCode.value >= 500
    then SEVERITY_HIGH
    else if result.ErrorCode() == Some("TIMEOUT") || result.ErrorCode() == Some("CONNECTION_FAILED") then SEVERITY_MEDIUM
    else SEVERITY_LOW
  }

  /** The severity is always HIGH, MEDIUM or LOW, never CRITICAL; HIGH exactly
      for an invalid certificate on a TLS check or a 5xx-or-above status on an
      HTTP check; MEDIUM exactly for a timeout or a refused connection that
      neither HIGH rule caught. */
  lemma SeverityRules(checkType: string, result: ProbeResult)
    ensures var s := Severity(checkType, result);
      var high := (checkType == TLS && result.ErrorCode() == Some("INVALID_CERTIFICATE"))
                  || (checkType == HTTP && result.Http? && result.http.statusCode.Some?
                      && result.http.statusCode.value >= 500);
      var medium := result.ErrorCode() == Some("TIMEOUT") || result.ErrorCode() == Some("CONNECTION_FAILED");
      && (s == SEVERITY_HIGH <==> high)
      && (s == SEVERITY_MEDIUM <==> !high && medium)
      && (s == SEVERITY_LOW <==> !high && !medium)
      && s != SEVERITY_CRITICAL
  {
  }

  /** The reason of a new incident: the error message, else the error code, else "Probe failed". */
  function Reason(result: ProbeResult): (reason: string)
    ensures result.ErrorMessage().Some? ==> reason == result.ErrorMessage().value
    ensures result.ErrorMessage().None? && result.ErrorCode().Some? ==> reason == result.ErrorCode().value
    ensures result.ErrorMessage().None? && result.ErrorCode().None? ==> reason == "Probe failed"
  {
    match result.ErrorMessage()
    case Some(message) => message
    case None =>
      match result.ErrorCode()
      case Some(code) => code
      case None => "Probe failed"
  }

  predicate IsOpenFor(i: Incident, domainId: Id, checkType: string) {
    i.domainId == domainId && i.checkType == checkType && i.status == INCIDENT_OPEN
  }

  predicate HasOpen(incidents: seq<Incident>, domainId: Id, checkType: string) {
    exists k :: 0 <= k < |incidents| && IsOpenFor(incidents[k], domainId, checkType)
  }

  /** An open incident after resolution. */
  function Resolved(i: Incident, t: Instant): Incident {
    i.(status := INCIDENT_RESOLVED, resolvedAt := Some(t), updatedAt := t)
  }

  /** Each incident of the pair that is open, resolved; every other incident as it was. */
  function ResolveOpen(incidents: seq<Incident>, domainId: Id, checkType: string, t: Instant): (r: seq<Incident>)
    ensures |r| == |incidents|
    ensures forall k :: 0 <= k < |r| ==>
      r[k] == if IsOpenFor(incidents[k], domainId, checkType) then Resolved(incidents[k], t) else incidents[k]
  {
    seq(|incidents|, k requires 0 <= k < |incidents| =>
      if IsOpenFor(incidents[k], domainId, checkType) then Resolved(incidents[k], t) else incidents[k])
  }

  /** The incident a failed probe opens. */
  function Opened(domainId: Id, checkType: string, result: ProbeResult, t: Instant): Incident {
    Incident(domainId, checkType, Severity(checkType, result), INCIDENT_OPEN, Some(Reason(result)), t, None, t, t)
  }

  /** The incident table after `CheckAndCreateIncidentsAsync`. */
  function EvaluateIncidents(incidents: seq<Incident>, domainId: Id, checkType: string, result: ProbeResult,
                             t: Instant): (r: seq<Incident>)
    ensures |incidents| <= |r| <= |incidents| + 1
    ensures |r| == |incidents| + 1 <==> !result.Success() && !HasOpen(incidents, domainId, checkType)
    ensures forall k :: 0 <= k < |incidents| && !IsOpenFor(incidents[k], domainId, checkType) ==> r[k] == incidents[k]
  {
    if result.Success() then ResolveOpen(incidents, domainId, checkType, t)
    else if HasOpen(incidents, domainId, checkType) then incidents
    else incidents + [Opened(domainId, checkType, result, t)]
  }

  /** After a success no incident of the pair is open; each formerly open one is
      resolved at `t`; every other incident is unchanged. */
  lemma SuccessResolvesAll(incidents: seq<Incident>, domainId: Id, checkType: string, result: ProbeResult, t: Instant)
    requires result.Success()
    ensures var r := EvaluateIncidents(incidents, domainId, checkType, result, t);
      && |r| == |incidents|
      && !HasOpen(r, domainId, checkType)
      && (forall k :: 0 <= k < |r| && IsOpenFor(incidents[k], domainId, checkType) ==>
            r[k].status == INCIDENT_RESOLVED && r[k].resolvedAt == Some(t))
      && (forall k :: 0 <= k < |r| && !IsOpenFor(incidents[k], domainId, checkType) ==> r[k] == incidents[k])
  {
  }

  /** After a failure, one new open incident is added when none was open, with
      the rule-chain severity and the reason; otherwise the table is unchanged. */
  lemma FailureOpensOnce(incidents: seq<Incident>, domainId: Id, checkType: string, result: ProbeResult, t: Instant)
    requires !result.Success()
    ensures var r := EvaluateIncidents(incidents, domainId, checkType, result, t);
      && (HasOpen(incidents, domainId, checkType) ==> r == incidents)
      && (!HasOpen(incidents, domainId, checkType) ==>
            && |r| == |incidents| + 1 && r[..|incidents|] == incidents
            && IsOpenFor(r[|incidents|], domainId, checkType)
            && r[|incidents|].severity == Severity(checkType, result)
            && r[|incidents|].reason == Some(Reason(result))
            && r[|incidents|].resolvedAt == None)
  {
    var r := EvaluateIncidents(incidents, domainId, checkType, result, t);
    if !HasOpen(incidents, domainId, checkType) {
      assert r[..|incidents|] == incidents;
    }
  }

  /** At most one open incident per (domain, check type) pair. */
  predicate AtMostOneOpen(incidents: seq<Incident>) {
    forall i, j ::
      (0 <= i < j < |incidents| && incidents[i].status == INCIDENT_OPEN && incidents[j].status == INCIDENT_OPEN) ==>
      (incidents[i].domainId != incidents[j].domainId || incidents[i].checkType != incidents[j].checkType)
  }

  /** Evaluating a result keeps at most one open incident per pair. */
  lemma EvaluationKeepsOneOpen(incidents: seq<Incident>, domainId: Id, checkType: string, result: ProbeResult,
                               t: Instant)
    requires AtMostOneOpen(incidents)
    ensures AtMostOneOpen(EvaluateIncidents(incidents, domainId, checkType, result, t))
  {
    var r := EvaluateIncidents(incidents, domainId, checkType, result, t);
    if result.Success() {
      forall i, j | 0 <= i < j < |r| && r[i].status == INCIDENT_OPEN && r[j].status == INCIDENT_OPEN
        ensures r[i].domainId != r[j].domainId || r[i].checkType != r[j].checkType
      {
        assert r[i] == incidents[i] && r[j] == incidents[j];
      }
    } else if !HasOpen(incidents, domainId, checkType) {
      var n := |incidents|;
      forall i, j | 0 <= i < j < |r| && r[i].status == INCIDENT_OPEN && r[j].status == INCIDENT_OPEN
        ensures r[i].domainId != r[j].domainId || r[i].checkType != r[j].checkType
      {
        if j == n {
          assert !IsOpenFor(incidents[i], domainId, checkType);
        } else {
          assert r[i] == incidents[i] && r[j] == incidents[j];
        }
      }
    }
  }

  /** `CheckAndCreateIncidentsAsync`: resolve the open incidents of the pair
      one by one after a success; after a failure, look for an open one and
      add a new incident when there is none. */
  method CheckAndCreateIncidents(db: Database, domainId: Id, checkType: string, result: ProbeResult, t: Instant)
    modifies db
    ensures db.incidents == EvaluateIncidents(old(db.incidents), domainId, checkType, result, t)
    ensures db.domains == old(db.domains) && db.checks == old(db.checks) && db.probeRuns == old(db.probeRuns)
    ensures db.groups == old(db.groups) && db.notifications == old(db.notifications) && db.attempts == old(db.attempts)
  {
    var incidents := db.incidents;
    if result.Success() {
      for k := 0 to |incidents|
        invariant |incidents| == |db.incidents|
        invariant forall j :: 0 <= j < k ==> incidents[j] == ResolveOpen(db.incidents, domainId, checkType, t)[j]
        invariant forall j :: k <= j < |incidents| ==> incidents[j] == db.incidents[j]
      {
        if IsOpenFor(incidents[k], domainId, checkType) {
          incidents := incidents[k := Resolved(incidents[k], t)];
        }
      }
      assert incidents == ResolveOpen(db.incidents, domainId, checkType, t);
    } else {
      var existing := FindOpen(incidents, domainId, checkType);
      if existing.None? {
        incidents := incidents + [Opened(domainId, checkType, result, t)];
      }
    }
    db.incidents := incidents;
  }

  /** `FirstOrDefaultAsync` for an open incident of the pair: its position, if any. */
  method FindOpen(incidents: seq<Incident>, domainId: Id, checkType: string) returns (at: Option<nat>)
    ensures at.None? <==> !HasOpen(incidents, domainId, checkType)
    ensures at.Some? ==>
      && at.value < |incidents| && IsOpenFor(incidents[at.value], domainId, checkType)
      && forall j :: 0 <= j < at.value ==> !IsOpenFor(incidents[j], domainId, checkType)
  {
    for k := 0 to |incidents|
      invariant forall j :: 0 <= j < k ==> !IsOpenFor(incidents[j], domainId, checkType)
    {
      if IsOpenFor(incidents[k], domainId, checkType) {
        return Some(k);
      }
    }
    return None;
  }

  /** `Execute`: an unknown check type changes nothing; a known one appends
      exactly one run and then evaluates the incidents of the pair. */
  method Execute(db: Database, job: JobData, env: Env)
    modifies db
    ensures !IsKnownCheckType(job.checkType) ==>
      db.probeRuns == old(db.probeRuns) && db.incidents == old(db.incidents)
    ensures IsKnownCheckType(job.checkType) ==>
      var result := RunProbe(job.checkType, job.domainName, env).value;
      && db.probeRuns == old(db.probeRuns) + [RunRecord(job, result, env.startedAt, env.completedAt)]
      && db.incidents == EvaluateIncidents(old(db.incidents), job.domainId, job.checkType, result, env.evaluatedAt)
    ensures db.domains == old(db.domains) && db.checks == old(db.checks)
    ensures db.groups == old(db.groups) && db.notifications == old(db.notifications) && db.attempts == old(db.attempts)
  {
    var result := Probe(job.checkType, job.domainName, env);
    if result.None? {
      return;
    }
    var run := BuildRun(job, result.value, env.startedAt, env.completedAt);
    db.probeRuns := db.probeRuns + [run];
    CheckAndCreateIncidents(db, job.domainId, job.checkType, result.value, env.evaluatedAt);
  }

  /** Dispatch is by exact, case-sensitive match: a lower-case type is unknown here. */
  lemma DispatchIsCaseSensitive(name: string, env: Env)
    ensures RunProbe("dns", name, env).None?
  {
  }
}

# observability_dns: a Dafny model of the probe pipeline and its services

observability_dns monitors domains. Each domain has three checks: DNS, TLS
and HTTP. A worker runs the probes, stores every probe run and opens or
resolves incidents. A Quartz scheduler keeps one repeating job per enabled
check. An outbox processor delivers notifications. An API manages domains and
domain groups and looks up live website information.

This project models the sequential logic of those parts. The network, the
clock and the database's failures are inputs.

- **Probe runners.**
  - DNS (`DnsProbe`): the A, AAAA and CNAME aggregation and its error
    classification.
  - TLS (`TlsProbe`): certificate classification, the "DNS Name=" scan of the
    SAN text, and host extraction.
  - HTTP (`HttpProbe`): URL normalisation, status classification and header
    capture.
  - Each runner is a specification function over abstract observations. A
    method with the source's loops is proved equal to that function.
- **Probe job and manual worker.**
  - `ProbeJob`: case-sensitive dispatch, the `ProbeRun` record, the severity
    rules and the incident state machine.
  - `ManualWorker`: the executor dispatches case-insensitively and never
    touches incidents. One pass runs over every enabled check of every enabled
    domain, and a probe whose save throws does not stop the pass.
- **Scheduler** (`ProbeScheduler`): reconciling the job map with the enabled
  checks. It only adds keys and never updates or removes one.
- **Notification outbox** (`NotificationProcessor`): the batch of ten oldest
  PENDING notifications, channel dispatch, and the SENT/FAILED/retry
  transitions with the attempt log, including the second save in the
  exception handler.
- **API services.**
  - `DomainService`: domain-name normalisation (also used by `TlsProbe` and
    `WebsiteInfo`, and proved equal to their copies); create, update and
    delete; the `GetDomainByIdAsync` filters.
  - `GroupService`: group create, update and delete; assigning a domain to a
    group; the integer statistics.
  - `WebsiteInfo`: the website-information lookup and its direct certificate
    mapping.

The database is a class `Store.Database` with one `seq` field per table. The
methods that change it state the new contents of every table. Ids are natural
numbers and instants are integer milliseconds.

Some behaviours of the code that the model states outright:
- The domain-name normaliser is not idempotent. `"www.www.a"` normalises to
  `"www.a"`, and that normalises to `"a"` (`DomainService.NotIdempotent`). A
  space after the scheme is kept (`DomainService.InnerSpaceKept`).
- HTTP success is `IsSuccessStatusCode`: a status from 200 to 299, the 2xx
  class of section 15.3 of RFC 9110. The runner's client follows redirects
  itself, so a redirecting site is judged by its final response; only a 3xx
  that the client does not follow reaches the check and fails.
- `line.Split("DNS Name=")[1]` is the text between the first and the second
  occurrence of the marker.
- A failed notification save does not lose the attempt row. The Entity
  Framework change tracker still holds the added row, so the exception
  handler's save stores it.

## Model

| member | source | states |
|---|---|---|
| DnsProbe.Resolve | src/worker/Probers/Dns/DnsProbeRunner.cs:25-118 | the method with the source's loops and early returns computes exactly `Resolution`, which guarantees: success implies records and no error; failure implies an error code and message; at most as many IPs as records; the duration is the stopwatch's |
| DnsProbe.Collect | src/worker/Probers/Dns/DnsProbeRunner.cs:42-85 | one record-collecting loop appends the records of the answers, and their addresses when the type is A or AAAA |
| DnsProbe.Resolution | src/worker/Probers/Dns/DnsProbeRunner.cs:25-117 | the duration is the stopwatch reading; a success carries no error, at least one record and the record list as snapshot; a failure carries an error code and message; there are never more IPs than records |
| DnsProbe.SuccessIffRecords | src/worker/Probers/Dns/DnsProbeRunner.cs:87-95 | without errors, success holds iff some record was collected; the snapshot is the record list; no records gives NXDOMAIN / "No DNS records found" |
| DnsProbe.AErrorShortCircuits | src/worker/Probers/Dns/DnsProbeRunner.cs:33-40 | an error flagged on the A response fails the probe with that message as the code and no records, whatever AAAA and CNAME answer |
| DnsProbe.ExceptionClassified | src/worker/Probers/Dns/DnsProbeRunner.cs:97-110 | an exception fails the probe: a DNS response exception gives its response code, any other gives UNKNOWN, and the message is the exception's |
| DnsProbe.ThrowKeepsEarlierRecords | src/worker/Probers/Dns/DnsProbeRunner.cs:72-110 | a CNAME query that throws keeps the A and AAAA records already collected, sets the exception's code and no snapshot |
| DnsProbe.IpsAreAddressRecords | src/worker/Probers/Dns/DnsProbeRunner.cs:42-69 | the IP list is exactly the values of the A and AAAA records, in order, on every input |
| DnsProbe.AnsweredRecords | src/worker/Probers/Dns/DnsProbeRunner.cs:42-85 | with every query answered and no error on A, the records are exactly the A answers, then the AAAA answers, then the CNAME answers, an erroring AAAA or CNAME query adding none; the IPs are the A addresses then the AAAA ones |
| DnsProbe.RecordsInQueryOrder | src/worker/Probers/Dns/DnsProbeRunner.cs:42-85 | whatever the outcome, the record types appear in the order A, then AAAA, then CNAME |
| DnsProbe.AddressValuesOfAddresses | src/worker/Probers/Dns/DnsProbeRunner.cs:42-68 | for address answers, the record values and the IPs appended are the same sequence |
| TlsProbe.PolicyErrorsText | src/worker/Probers/Tls/TlsProbeRunner.cs:93-95 | the `SslPolicyErrors` text is "None" iff no policy error flag is set |
| TlsProbe.SingleFlagText | src/worker/Probers/Tls/TlsProbeRunner.cs:93-95 | a single flag prints as its enum name |
| TlsProbe.SanNames | src/worker/Probers/Tls/TlsProbeRunner.cs:121-139 | a certificate without the SAN extension has no names, and every name is trimmed |
| TlsProbe.SanLinesAreMarkedLines | src/worker/Probers/Tls/TlsProbeRunner.cs:131-139 | the names are one per line that contains "DNS Name=", in line order, each taken from its own line |
| TlsProbe.SanNamesAreTrimmed | src/worker/Probers/Tls/TlsProbeRunner.cs:134-136 | every extracted name is trimmed and comes from a marked line of the SAN text |
| TlsProbe.ExtractSanNames | src/worker/Probers/Tls/TlsProbeRunner.cs:121-147 | the method's loop over the split lines computes `SanNames`: empty without the extension, else the names of the marked lines |
| TlsProbe.DaysUntilExpiry | src/worker/Probers/Tls/TlsProbeRunner.cs:59-67 | a count exists iff NotAfter is after now; it is then the whole number of days, floored and non-negative |
| TlsProbe.CertificateCheck | src/worker/Probers/Tls/TlsProbeRunner.cs:26-119 | success iff a certificate was captured; no certificate gives NO_CERTIFICATE; a socket failure gives CONNECTION_FAILED; anything else gives UNKNOWN; on success IsValid iff no policy errors and NotAfter > now, INVALID_CERTIFICATE with the policy text otherwise, and the snapshot repeats the certificate |
| TlsProbe.CheckCertificate | src/worker/Probers/Tls/TlsProbeRunner.cs:26-119 | the method that fills the result field by field computes exactly `CertificateCheck` of the handshake outcome |
| TlsProbe.ExtractHost | src/worker/Probers/Tls/TlsProbeRunner.cs:149-165 | the step-by-step host extraction equals `DomainService.NormalizeDomainName` on every input |
| TlsProbe.RunProbe | src/worker/Probers/Tls/TlsProbeRunner.cs:19-24 | the probe connects to the extracted host and classifies that outcome |
| TlsProbe.ExpiredIsInvalid | src/worker/Probers/Tls/TlsProbeRunner.cs:53-96 | an expired certificate is captured (success) but invalid, has no day count and gives INVALID_CERTIFICATE |
| TlsProbe.ExpiredWithoutPolicyErrorsSaysNone | src/worker/Probers/Tls/TlsProbeRunner.cs:93-95 | an expired certificate without policy errors is reported with the message "None" |
| TlsProbe.ErrorCodeIffInvalid | src/worker/Probers/Tls/TlsProbeRunner.cs:86-96 | on success the error code is unset iff the certificate is valid |
| HttpProbe.NormalizeUrl | src/worker/Probers/Http/HttpProbeRunner.cs:86-94 | the URL names the http or https scheme and is trimmed; a trimmed input that already names one is kept as it is |
| HttpProbe.IsSuccessStatusCode | src/worker/Probers/Http/HttpProbeRunner.cs:49 | success is exactly the statuses whose hundreds digit is 2 |
| HttpProbe.NormalizeUrlShape | src/worker/Probers/Http/HttpProbeRunner.cs:86-94 | the URL has a scheme, is trimmed and ends with the trimmed input; it is the trimmed input iff that already had a scheme |
| HttpProbe.NormalizeUrlIdempotent | src/worker/Probers/Http/HttpProbeRunner.cs:86-94 | normalising twice gives the same URL as normalising once |
| HttpProbe.HeaderMap | src/worker/Probers/Http/HttpProbeRunner.cs:44-47 | the header map's keys are exactly the response's header names |
| HttpProbe.HeaderMapLastWins | src/worker/Probers/Http/HttpProbeRunner.cs:44-47 | each name maps to its last entry's values joined with ", " |
| HttpProbe.UrlCheck | src/worker/Probers/Http/HttpProbeRunner.cs:23-84 | success iff a 2xx response arrived; a response records its status, TTFB and headers; a non-2xx status gives "HTTP_"+status and "HTTP status reason"; a timeout gives TIMEOUT, a request exception HTTP_ERROR, anything else UNKNOWN |
| HttpProbe.CheckUrl | src/worker/Probers/Http/HttpProbeRunner.cs:23-84 | the method with the header loop sends the normalised URL and returns exactly `UrlCheck` of the outcome |
| HttpProbe.ErrorCodeIffFailure | src/worker/Probers/Http/HttpProbeRunner.cs:49-76 | the error code is unset iff the probe succeeded |
| HttpProbe.NonSuccessStatusFails | src/worker/Probers/Http/HttpProbeRunner.cs:49-54 | any status outside 200–299 fails the probe with "HTTP_"+status |
| HttpProbe.ErrorCodeNamesStatus | src/worker/Probers/Http/HttpProbeRunner.cs:52 | two statuses with the same error code are the same status |
| WebsiteInfo.NormalizeDomainName | src/api/Services/WebsiteInfoService.cs:221-242 | this copy of the normaliser equals `DomainService.NormalizeDomainName` on every input |
| WebsiteInfo.DirectCertificateInfo | src/api/Services/WebsiteInfoService.cs:160-197 | any captured certificate counts as valid and has NotAfter and a day count only before expiry; no certificate gives "Certificate not found"; a failure gives its message; the SAN list is always empty |
| WebsiteInfo.GetCertificateInfoDirect | src/api/Services/WebsiteInfoService.cs:160-197 | the method computes exactly `DirectCertificateInfo` of the handshake |
| WebsiteInfo.Lookup | src/api/Services/WebsiteInfoService.cs:23-90 | the result names the normalised domain; TLS information is present iff no DNS query threw, and is then the direct certificate information |
| WebsiteInfo.GetWebsiteInfo | src/api/Services/WebsiteInfoService.cs:23-90 | the method with the three record loops computes exactly `Lookup` of the normalised domain |
| WebsiteInfo.AErrorDoesNotAbort | src/api/Services/WebsiteInfoService.cs:35-79 | unlike the DNS probe, an error flagged on the A response only drops the A records; AAAA and CNAME still contribute and TLS still runs |
| WebsiteInfo.IpsAreAddressRecords | src/api/Services/WebsiteInfoService.cs:35-79 | the IPs are exactly the A and AAAA values among the DNS records, so CNAME values never become IPs |
| WebsiteInfo.AnsweredLookup | src/api/Services/WebsiteInfoService.cs:34-80 | when no query throws, the records are exactly the A, then AAAA, then CNAME answers of the queries without an error; the IPs are the A then AAAA addresses; the TLS information is looked up |
| WebsiteInfo.ThrowKeepsPartialResult | src/api/Services/WebsiteInfoService.cs:34-89 | a throwing A query leaves no records and no IPs; a throwing AAAA query keeps exactly the A part; a throwing CNAME query keeps exactly the A and AAAA parts; none of them has TLS information |
| WebsiteInfo.PolicyErrorsIgnored | src/api/Services/WebsiteInfoService.cs:167-184 | a certificate with policy errors is valid here but invalid for the TLS probe |
| ProbeJob.HttpTargetShape | src/worker/Scheduler/ProbeJob.cs:58 | the HTTP target starts with "http" and ends with the name; it is the name itself iff the name starts with "http" |
| ProbeJob.RunProbe | src/worker/Scheduler/ProbeJob.cs:42-68 | a result exists iff the type is exactly DNS, TLS or HTTP, and then comes from that type's runner |
| ProbeJob.Probe | src/worker/Scheduler/ProbeJob.cs:42-68 | the switch computes exactly `RunProbe` |
| ProbeJob.RunRecord | src/worker/Scheduler/ProbeJob.cs:73-101 | the run copies the job's ids and type and the result's success, error and duration; DNS sets only DnsMs (= TotalMs) and the snapshot; TLS sets only TlsMs (= TotalMs) and the certificate; HTTP sets only TTFB and status |
| ProbeJob.BuildRun | src/worker/Scheduler/ProbeJob.cs:73-101 | the field-by-field construction computes exactly `RunRecord` |
| ProbeJob.Severity | src/worker/Scheduler/ProbeJob.cs:178-188 | the severity is HIGH, MEDIUM or LOW, and never HIGH for a check type other than TLS or HTTP |
| ProbeJob.SeverityRules | src/worker/Scheduler/ProbeJob.cs:178-188 | HIGH iff an invalid certificate on TLS or status ≥ 500 on HTTP; MEDIUM iff TIMEOUT or CONNECTION_FAILED otherwise; LOW otherwise; never CRITICAL |
| ProbeJob.Reason | src/worker/Scheduler/ProbeJob.cs:160 | the reason is the error message, else the error code, else "Probe failed" |
| ProbeJob.ResolveOpen | src/worker/Scheduler/ProbeJob.cs:125-143 | every OPEN incident of the pair is resolved at the given time, every other one is kept |
| ProbeJob.SuccessResolvesAll | src/worker/Scheduler/ProbeJob.cs:125-143 | after a success no incident of the pair is OPEN; each formerly open one is RESOLVED with ResolvedAt set; the others are untouched |
| ProbeJob.FailureOpensOnce | src/worker/Scheduler/ProbeJob.cs:145-175 | after a failure the table is unchanged if the pair has an OPEN incident, otherwise exactly one OPEN incident with the rule's severity and reason is appended |
| ProbeJob.EvaluateIncidents | src/worker/Scheduler/ProbeJob.cs:118-176 | the table grows by at most one incident, and by one exactly when the probe failed with no incident of the pair open; incidents that are not open for the pair are unchanged |
| ProbeJob.EvaluationKeepsOneOpen | src/worker/Scheduler/ProbeJob.cs:125-175 | at most one OPEN incident per (domain, check type) before evaluation implies the same after it |
| ProbeJob.FindOpen | src/worker/Scheduler/ProbeJob.cs:148-151 | the search finds the first OPEN incident of the pair, or none iff there is none |
| ProbeJob.CheckAndCreateIncidents | src/worker/Scheduler/ProbeJob.cs:118-176 | the incident loop leaves exactly the evaluated incident table and changes no other table |
| ProbeJob.Execute | src/worker/Scheduler/ProbeJob.cs:23-116 | an unknown type stores nothing; a known one appends exactly its run record and evaluates incidents; nothing else changes |
| ProbeJob.DispatchIsCaseSensitive | src/worker/Scheduler/ProbeJob.cs:42-68 | the job runs no probe for the check type "dns" |
| ManualWorker.ExecutorRun | src/worker/ManualWorker.cs:151-234 | a run exists iff the upper-cased type is known; it keeps the original type string and the job's ids |
| ManualWorker.DispatchIgnoresCase | src/worker/ManualWorker.cs:164-226 | two known check types equal after upper-casing store the same run, each keeping its own check type as given |
| ManualWorker.CaseOnlyKnownHere | src/worker/ManualWorker.cs:164 | a check type that is known only after upper-casing is probed by the executor but not by the Quartz job |
| ManualWorker.LowerCaseDnsRuns | src/worker/ManualWorker.cs:164 | "dns" is known only after upper-casing |
| ManualWorker.Track | src/worker/ManualWorker.cs:228-229 | the change tracker: a save stores every pending run; a failed save keeps them pending |
| ManualWorker.ExecuteProbe | src/worker/ManualWorker.cs:151-234 | the executor adds its run to the change tracker and saves; it throws iff the save fails; only probe runs change, never incidents |
| ManualWorker.Attempts | src/worker/ManualWorker.cs:93-101 | one executor attempt per work item, in iteration order |
| ManualWorker.FailedSaveDoesNotStopPass | src/worker/ManualWorker.cs:102-124 | stored plus pending runs after a pass are all the runs executed, whichever saves failed |
| ManualWorker.SavedPassStoresAll | src/worker/ManualWorker.cs:93-129 | when every save succeeds, the pass stores exactly the executed runs and leaves nothing pending |
| ManualWorker.LastSaveStoresAll | src/worker/ManualWorker.cs:228-229 | a successful last save stores every run of the pass so far, including those whose own save failed |
| ManualWorker.Pass | src/worker/ManualWorker.cs:93-129 | the stored runs never shrink, and stored plus pending runs grow by at most one per attempt |
| ManualWorker.PassOnlyAppends | src/worker/ManualWorker.cs:93-129 | a pass never removes or changes a stored run |
| ManualWorker.ExecutedFromAttempts | src/worker/ManualWorker.cs:185-229 | every executed run comes from an attempt that produced it; unknown types add nothing |
| ManualWorker.RunsComeFromEnabledChecks | src/worker/ManualWorker.cs:70-97 | every run of a pass belongs to an enabled check of an enabled domain |
| ManualWorker.ProcessEnabledDomains | src/worker/ManualWorker.cs:64-132 | the loop leaves the stored runs of the pass specification over the enabled work and changes no other table |
| Store.EnabledChecksOf | src/worker/ManualWorker.cs:93-97 | the enabled checks of a domain, exactly, in table order |
| Store.EnabledWork | src/worker/ManualWorker.cs:70-97 | a work item is listed iff its domain is enabled and its check is an enabled check of that domain |
| ProbeScheduler.JobKey | src/worker/Scheduler/ProbeScheduler.cs:61 | every job key starts with "probe-" |
| ProbeScheduler.JobKeyInjective | src/worker/Scheduler/ProbeScheduler.cs:61 | different (domain, check type) pairs get different job keys |
| ProbeScheduler.Scheduler.CheckExists | src/worker/Scheduler/ProbeScheduler.cs:65-68 | a key exists iff it is in the job map |
| ProbeScheduler.Scheduler.ScheduleJob | src/worker/Scheduler/ProbeScheduler.cs:79-93 | a job is added iff its key is new and its interval is positive; otherwise the map is unchanged |
| ProbeScheduler.NewJob | src/worker/Scheduler/ProbeScheduler.cs:71-91 | the job carries the domain id, the domain name, the check id and the check type, starts at the pass time, and repeats every IntervalMinutes × 60000 ms, a positive interval exactly when the domain's interval is at least one minute |
| ProbeScheduler.Reconcile | src/worker/Scheduler/ProbeScheduler.cs:47-98 | a pass only adds job keys |
| ProbeScheduler.ReconcileKeepsExisting | src/worker/Scheduler/ProbeScheduler.cs:47-98 | no job is ever removed or changed, whatever the domain's interval now is |
| ProbeScheduler.ReconcileCovers | src/worker/Scheduler/ProbeScheduler.cs:52-61 | after a completed pass every enabled check's key is scheduled |
| ProbeScheduler.ReconcileAddsNewJobs | src/worker/Scheduler/ProbeScheduler.cs:71-93 | every new key belongs to a work item; its job carries that item's data, starts at the pass time and repeats every IntervalMinutes |
| ProbeScheduler.ReconcileAbortsOnBadInterval | src/worker/Scheduler/ProbeScheduler.cs:85-93 | a pass stops early only at an unscheduled item whose interval is under one minute |
| ProbeScheduler.CoveredPassIsNoop | src/worker/Scheduler/ProbeScheduler.cs:65-68 | a pass whose keys are all present changes nothing |
| ProbeScheduler.ReconcileIdempotent | src/worker/Scheduler/ProbeScheduler.cs:65-68 | a second pass over the same configuration, at any later time, adds nothing |
| ProbeScheduler.NewJobsAreEnabled | src/worker/Scheduler/ProbeScheduler.cs:52-59 | every new key is of an enabled check of an enabled domain |
| ProbeScheduler.ScheduleAllDomains | src/worker/Scheduler/ProbeScheduler.cs:47-98 | the nested loop with its exists guard leaves exactly the reconciled job map |
| NotificationProcessor.Candidates | src/worker/Services/NotificationProcessor.cs:52-53 | the candidate positions are exactly the PENDING rows with fewer than three retries, each once |
| NotificationProcessor.Batch | src/worker/Services/NotificationProcessor.cs:52-56 | at most ten distinct qualifying rows, in non-decreasing CreatedAt order |
| NotificationProcessor.BatchTakesOldest | src/worker/Services/NotificationProcessor.cs:54-55 | a qualifying row left out means the batch is full of rows created no later |
| NotificationProcessor.Sent | src/worker/Services/NotificationProcessor.cs:103-164 | EMAIL always succeeds, SLACK succeeds iff the webhook post does, any other channel fails |
| NotificationProcessor.Bump | src/worker/Services/NotificationProcessor.cs:71-75 | one more retry; the status becomes FAILED iff the count reaches three; nothing else changes |
| NotificationProcessor.Step | src/worker/Services/NotificationProcessor.cs:60-99 | one item changes only its own row and appends its attempt rows; the pass ends iff both saves throw |
| NotificationProcessor.DeliveredIsSent | src/worker/Services/NotificationProcessor.cs:64-68 | a delivered notification becomes SENT with ProcessedAt and the same retry count, and no attempt is logged |
| NotificationProcessor.FailureIsCounted | src/worker/Services/NotificationProcessor.cs:69-85 | a failed delivery adds one retry, FAILED iff the count reaches three, PENDING otherwise, and exactly one attempt numbered by the new count |
| NotificationProcessor.SaveFailureCountsTwice | src/worker/Services/NotificationProcessor.cs:90-98 | when the first save throws, the handler adds one retry more |
| NotificationProcessor.RetryCountCanReachFour | src/worker/Services/NotificationProcessor.cs:69-98 | a row at two retries can reach a count of four |
| NotificationProcessor.Process | src/worker/Services/NotificationProcessor.cs:58-100 | the table keeps its size, and the pass runs to the end iff no item has both its first save and its exception-handler save fail |
| NotificationProcessor.ProcessFrame | src/worker/Services/NotificationProcessor.cs:58-100 | rows outside the batch are unchanged and the attempt log only grows |
| NotificationProcessor.StepKeepsConsistent | src/worker/Services/NotificationProcessor.cs:60-99 | after one item the row is SENT with a time, or PENDING/FAILED as its count says |
| NotificationProcessor.ProcessKeepsConsistent | src/worker/Services/NotificationProcessor.cs:58-100 | consistency of every row is kept by a whole pass over a distinct batch |
| NotificationProcessor.PassKeepsConsistent | src/worker/Services/NotificationProcessor.cs:47-101 | the same for the pass over the selected batch |
| NotificationProcessor.SavedPassCapsRetries | src/worker/Services/NotificationProcessor.cs:53-86 | when every first save succeeds the pass completes and no retry count exceeds three |
| NotificationProcessor.ProcessItem | src/worker/Services/NotificationProcessor.cs:60-99 | the item's try/catch with its two saves computes exactly `Step`, and a double failure leaves the outbox tables as they were |
| NotificationProcessor.ProcessPendingNotifications | src/worker/Services/NotificationProcessor.cs:47-101 | the loop over the batch leaves exactly the outbox of `Process` and changes no other table |
| DomainService.NormalizeDomainName | src/api/Services/DomainService.cs:178-203 | the name has no '/', no ':' and no ASCII upper case, and is a prefix of the trimmed, lowered, scheme- and www-stripped input |
| DomainService.CutsAtFirstSeparator | src/api/Services/DomainService.cs:193-200 | the name ends exactly where the host part's first '/' or ':' is |
| DomainService.NormalizeExample | src/api/Services/DomainService.cs:178-203 | "HTTPS://WWW.Example.com:443/path" normalises to "example.com" |
| DomainService.NormalizeFullUrl | src/api/Services/DomainService.cs:178-203 | any "HTTPS://WWW.host:port/path" normalises to the lower-cased host |
| DomainService.StripsOneWww | src/api/Services/DomainService.cs:189-190 | one leading "www." is stripped |
| DomainService.NotIdempotent | src/api/Services/DomainService.cs:189-190 | "www.www.x" normalises to "www.x", a second pass gives "x": the normaliser is not idempotent |
| DomainService.SchemeStrippedBeforeWww | src/api/Services/DomainService.cs:183-190 | "www." is stripped only after the scheme, so "www.http://x" normalises to "http" |
| DomainService.InnerSpaceKept | src/api/Services/DomainService.cs:180-186 | a space after the scheme survives normalisation |
| DomainService.NormalizeClean | src/api/Services/DomainService.cs:178-203 | a trimmed lower-case name without separators or "www." is its own normal form |
| DomainService.NormalizeFixedPoint | src/api/Services/DomainService.cs:178-203 | a result that is trimmed and does not start with "www." is a fixed point |
| DomainService.FindDomain | src/api/Services/DomainService.cs:151 | the lookup by id gives the first position with that id, or none iff there is none |
| DomainService.CreatedDomainName | src/api/Services/DomainService.cs:111-123 | the new domain stores the normalised name and the request's settings |
| DomainService.DefaultChecksShape | src/api/Services/DomainService.cs:126-134 | exactly three enabled checks, one of each type, owned by the new domain |
| DomainService.CreatedChecksAreEnabledChecks | src/api/Services/DomainService.cs:126-134 | after creation the new domain's enabled checks are exactly its three default checks |
| DomainService.CreateDomain | src/api/Services/DomainService.cs:108-147 | one domain row and its three checks are appended; the returned view is the new row's |
| DomainService.CreatePreservesUniqueIds | src/api/Services/DomainService.cs:108-147 | adding a domain with a fresh id keeps ids unique |
| DomainService.ApplyUpdate | src/api/Services/DomainService.cs:155-160 | only Enabled and IntervalMinutes change, each only when supplied; the name is kept; UpdatedAt is set |
| DomainService.ApplyUpdateIdempotent | src/api/Services/DomainService.cs:155-160 | applying the same update twice equals applying it once |
| DomainService.EmptyUpdateTouchesOnlyTimestamp | src/api/Services/DomainService.cs:155-160 | an empty update changes only UpdatedAt |
| DomainService.UpdateDomain | src/api/Services/DomainService.cs:149-165 | an unknown id returns false with no change; otherwise only that domain is replaced by its update |
| DomainService.RemoveAt | src/api/Services/DomainService.cs:173 | removing a row keeps the others in order |
| DomainService.RemovedDomainIsGone | src/api/Services/DomainService.cs:167-176 | after deletion the id is absent, every other domain remains and ids stay unique |
| DomainService.DeleteDomain | src/api/Services/DomainService.cs:167-176 | an unknown id returns false with no change; otherwise exactly that row is removed |
| DomainService.RecentRuns | src/api/Services/DomainService.cs:47-51 | min(10, runs of the domain) runs, a sub-multiset of the domain's runs (so no run is listed more often than it is stored), latest CompletedAt first, and all of them when there are at most ten |
| DomainService.RecentRunsAreLatest | src/api/Services/DomainService.cs:47-51 | a run of the domain is left out only when exactly ten are listed, and it is no later than every listed run |
| DomainService.OpenIncidents | src/api/Services/DomainService.cs:53-56 | exactly the OPEN incidents of the domain, latest StartedAt first |
| DomainService.GetDomainById | src/api/Services/DomainService.cs:38-106 | none iff the id is unknown; otherwise that domain with exactly its checks, its recent runs and its open incidents |
| GroupService.FindGroup | src/api/Services/GroupService.cs:122 | the lookup by id gives a position with that id, or none iff there is none |
| GroupService.CreateAsWritten | src/api/Services/GroupService.cs:81-118 | the create path as written fails iff a stored name equals the untrimmed request name ignoring case, and otherwise appends the new group |
| GroupService.UntrimmedCheckAdmitsDuplicate | src/api/Services/GroupService.cs:84-92 | with "ops" stored, creating "OPS " passes the check and stores a second "OPS", breaking case-insensitive uniqueness |
| GroupService.CreateKeepsValid | src/api/Services/GroupService.cs:81-118 | with the trimmed name checked, creation keeps ids unique and lowered names unique |
| GroupService.CreateGroup | src/api/Services/GroupService.cs:81-118 | the create path with the corrected check of line 85: a stored name equal to the trimmed request name ignoring case gives NameExists with no change; otherwise one trimmed group is appended and returned with DomainCount 0 |
| GroupService.Patch | src/api/Services/GroupService.cs:139-146 | an absent value keeps the field, "" clears it to null, anything else is stored trimmed |
| GroupService.UpdateOutcome | src/api/Services/GroupService.cs:120-155 | not found iff the id is unknown; for a known id, NameConflict exactly when the requested rename conflicts with another group; nothing changes unless Updated, which replaces exactly that group by its patched version |
| GroupService.UpdateKeepsValid | src/api/Services/GroupService.cs:127-137 | the rename-conflict check keeps lowered names unique |
| GroupService.EmptyUpdateTouchesOnlyTimestamp | src/api/Services/GroupService.cs:136-151 | an empty update changes only UpdatedAt |
| GroupService.EmptyStringsInUpdate | src/api/Services/GroupService.cs:136-146 | an empty name keeps the name; empty texts clear description, color and icon |
| GroupService.ApplyRequest | src/api/Services/GroupService.cs:136-151 | the field-by-field update computes exactly the patched group |
| GroupService.UpdateGroup | src/api/Services/GroupService.cs:120-155 | the method returns the outcome's verdict and leaves exactly its group table |
| GroupService.DetachAll | src/api/Services/GroupService.cs:167-173 | each domain is detached from the group, position by position |
| GroupService.DetachAllClears | src/api/Services/GroupService.cs:167-173 | no domain refers to the group afterwards; only GroupId changes, and only for members; detaching twice is detaching once |
| GroupService.DeleteGroup | src/api/Services/GroupService.cs:157-180 | an unknown id returns false with no change; otherwise the group is removed and its domains detached, with or without the flag (the flag's loop or the SetNull foreign key) |
| GroupService.DeleteKeepsValid | src/api/Services/GroupService.cs:157-180 | the remaining groups stay valid and the id is gone |
| GroupService.AssignOutcome | src/api/Services/GroupService.cs:182-201 | true iff the domain exists and a given group exists; then only that domain's GroupId and UpdatedAt change; a null group id unassigns |
| GroupService.AssignKeepsRefsValid | src/api/Services/GroupService.cs:182-201 | assignment keeps every domain's group reference pointing at an existing group |
| GroupService.DeleteKeepsRefsValid | src/api/Services/GroupService.cs:157-180 | deletion with detaching keeps every group reference valid |
| GroupService.AssignDomainToGroup | src/api/Services/GroupService.cs:182-201 | the method returns the outcome's verdict and leaves exactly its domain table |
| GroupService.MemberIds | src/api/Services/GroupService.cs:205-208 | the ids of exactly the group's domains |
| GroupService.LatestCompletion | src/api/Services/GroupService.cs:231-235 | none iff there are no runs; otherwise the largest CompletedAt among them |
| GroupService.Statistics | src/api/Services/GroupService.cs:203-248 | the domain count is the number of the group's domains; the enabled count, the run total, the successful runs, the open incidents and the last run time are taken over the group's enabled domains, the runs of its domains and the OPEN incidents of its domains; successful plus failed is the total |
| GroupService.StatisticsConsistent | src/api/Services/GroupService.cs:203-248 | successful plus failed runs is the total; failures are non-negative; enabled domains are at most the domains; a last run exists iff some run belongs to a domain of the group, and it is then the latest CompletedAt among those runs |
| GroupService.EmptyGroupStatistics | src/api/Services/GroupService.cs:210-211 | a group without domains gets all-zero statistics |
| GroupService.OpenIncidentsOfMembers | src/api/Services/GroupService.cs:228-229 | the open-incident count counts exactly the OPEN incidents of the group's domains |

## Left out

- Concurrency and timing are not modelled. This covers the periodic `while` loops of the worker, the scheduler and the outbox processor, `Task.Delay`, cancellation tokens, `[DisallowConcurrentExecution]`, and the Quartz trigger engine's firing. Each model is one pass.
- Network I/O is not modelled. DNS queries, TCP/TLS handshakes, HTTP sends and the Slack post are inputs (`Network.Env`, `NotificationProcessor.PassEnv`). The stopwatch and the clock readings are also inputs.
- `AverageLatency` is not modelled, because it is floating point. `TimeSpan` arithmetic is integer milliseconds.
- The JSON snapshots are not modelled. The DNS records snapshot and the certificate snapshot are stored as values, not serialised. The Slack payload building is not modelled.
- Parsing the X.509 SAN extension is not modelled. The extension's formatted text is an input, and only the "DNS Name=" line scan is modelled.
- Text casing is ASCII only. `ToLower` and `ToUpper` leave non-ASCII letters alone. `StartsWith` is modelled as an ordinal comparison, not culture-sensitive.
- Generated ids and `DateTime.UtcNow` are parameters of the operations that use them.
- The trigger key (`trigger-…`) is not modelled, because the job key identifies a job.
- The TLS port 443 is not modelled. The handshake outcome is per host.
- Quartz's trigger validation is reduced to one rule: an interval below one minute raises and ends the pass. `ProbeScheduler.ScheduleAllDomains` leaves out the other Quartz exceptions. Nothing in `ExecuteAsync` (src/worker/Scheduler/ProbeScheduler.cs:29-45) catches that exception, so in the service it also ends the periodic loop for good; the model covers one pass only (an observation from the code, not executed).
- The HTTP client's automatic redirect handling is not modelled. `httpSend` stands for the final response after the redirects the client follows.
- WebsiteInfo omits three things from `GetTlsInfoAsync`: its HTTP GET, its certificate-validation callback, whose result is discarded, and its outer catch. The TLS information is the direct connection's, which is what the method returns.
- WebsiteInfo has two SAN helpers, `ExtractSanNames(extension)` and `ExtractSanNamesFromCert`. Both always return an empty list, so `WebsiteInfo.DirectCertificateInfo` states only that SAN list.
- The API services' storage failures are not modelled. `SaveChangesAsync` in `DomainService` and `GroupService` always succeeds.
- The database's case-sensitive unique index on group names is not modelled. The model checks the service's case-insensitive rule only.
- `DomainService.DeleteDomain` does not model the cascade deletion of the domain's checks, runs and incidents. The service removes only the domain row; any cascade comes from the database's foreign keys or from Entity Framework Core's convention for required relationships, and neither is part of this model.
- Listing and projection are not modelled. This covers `GetAllDomainsAsync`, `GetAllGroupsAsync`, `GetGroupByIdAsync` and the DTO member lists. They are EF queries without logic of their own.
- The order among equal keys in `OrderBy`/`OrderByDescending` is not fixed by the model. The model states the sorted order and the contents.
- `ProbeJob.Execute` assumes its save and the incident step succeed. A failure there is only logged by the job's catch, so the model does not include it.
- `ManualWorker.ProcessEnabledDomains` flattens the worker's nested loops over domains and checks into one loop over `Store.EnabledWork`. The order is the same.
- `NotificationProcessor.SavedPassCapsRetries`: a retry count stays at most three only when the first save of every item succeeds. When a save throws, the exception handler's extra increment can reach four (`NotificationProcessor.RetryCountCanReachFour`).

## Findings

| source | as written | input that shows it | evidently intended | confidence | as-written member | corrected member |
|---|---|---|---|---|---|---|
| src/api/Services/GroupService.cs:85 | the duplicate check compares the lowered stored names with the lowered request name untrimmed, but line 92 stores the name trimmed | stored group "ops", create request named "OPS " | compare against the trimmed name, so no two groups share a name ignoring case | not executed | GroupService.UntrimmedCheckAdmitsDuplicate | GroupService.CreateGroup, GroupService.CreateKeepsValid |

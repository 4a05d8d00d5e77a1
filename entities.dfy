/**
 * The rows of the tables the services read and write. Status and severity
 * columns are strings in the schema and are compared as strings by the code,
 * so they stay strings here; the constants name the values the code writes.
 */
module Entities {
  import opened Common
  import opened ProbeResults

  const INCIDENT_OPEN: string := "OPEN"
  const INCIDENT_RESOLVED: string := "RESOLVED"

  const SEVERITY_LOW: string := "LOW"
  const SEVERITY_MEDIUM: string := "MEDIUM"
  const SEVERITY_HIGH: string := "HIGH"
  const SEVERITY_CRITICAL: string := "CRITICAL"

  const NOTIFICATION_PENDING: string := "PENDING"
  const NOTIFICATION_SENT: string := "SENT"
  const NOTIFICATION_FAILED: string := "FAILED"

  /** A monitored domain (`domains`, with the `icon` and `group_id` columns of the groups migration). */
  datatype Domain = Domain(
    id: Id,
    name: string,
    enabled: bool,
    intervalMinutes: int,
    icon: Option<string>,
    groupId: Option<Id>,
    createdAt: Instant,
    updatedAt: Instant)

  /** One check of a domain (`checks`); `checkType` is "DNS", "TLS" or "HTTP" when created by the API. */
  datatype Check = Check(
    id: Id,
    domainId: Id,
    checkType: string,
    enabled: bool,
    createdAt: Instant,
    updatedAt: Instant)

  /** One stored probe execution (`probe_runs`). */
  datatype ProbeRun = ProbeRun(
    domainId: Id,
    checkId: Id,
    checkType: string,
    success: bool,
    errorCode: Option<string>,
    errorMessage: Option<string>,
    dnsMs: Option<int>,
    tlsMs: Option<int>,
    ttfbMs: Option<int>,
    totalMs: int,
    statusCode: Option<int>,
    recordsSnapshot: Option<seq<DnsRecord>>,
    certificateInfo: Option<CertificateSnapshot>,
    startedAt: Instant,
    completedAt: Instant)

  /** An outage record for one (domain, check type) pair (`incidents`). */
  datatype Incident = Incident(
    domainId: Id,
    checkType: string,
    severity: string,
    status: string,
    reason: Option<string>,
    startedAt: Instant,
    resolvedAt: Option<Instant>,
    createdAt: Instant,
    updatedAt: Instant)

  /** A named collection of domains (`domain_groups`). */
  datatype DomainGroup = DomainGroup(
    id: Id,
    name: string,
    description: Option<string>,
    color: Option<string>,
    icon: Option<string>,
    enabled: bool,
    createdAt: Instant,
    updatedAt: Instant)

  /** An outbox entry (`notifications`); the JSON payload is not modelled. */
  datatype Notification = Notification(
    id: Id,
    domainId: Id,
    incidentId: Option<Id>,
    channel: string,
    destination: string,
    status: string,
    createdAt: Instant,
    processedAt: Option<Instant>,
    retryCount: int)

  /** One failed delivery attempt (`notification_attempts`). */
  datatype NotificationAttempt = NotificationAttempt(
    notificationId: Id,
    attemptNumber: int,
    errorMessage: Option<string>,
    attemptedAt: Instant)
}

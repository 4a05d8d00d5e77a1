/**
 * The values the three probe runners return. Each runner fills a result
 * object; here each result is a value with the same fields.
 */
module ProbeResults {
  import opened Common

  /** One entry of a DNS result's `Records` list (also the element of its JSON snapshot). */
  datatype DnsRecord = DnsRecord(recordType: string, value: string, ttl: int)

  /** The certificate details a TLS probe stores as its `CertificateInfo` snapshot. */
  datatype CertificateSnapshot = CertificateSnapshot(
    issuer: string,
    subject: string,
    notBefore: Instant,
    notAfter: Instant,
    daysUntilExpiry: Option<int>,
    subjectAlternativeNames: seq<string>,
    isValid: bool)

  datatype DnsProbeResult = DnsProbeResult(
    success: bool,
    errorCode: Option<string>,
    errorMessage: Option<string>,
    durationMs: nat,
    ipAddresses: seq<string>,
    records: seq<DnsRecord>,
    recordsSnapshot: Option<seq<DnsRecord>>)

  datatype TlsProbeResult = TlsProbeResult(
    success: bool,
    errorCode: Option<string>,
    errorMessage: Option<string>,
    durationMs: nat,
    isValid: bool,
    issuer: Option<string>,
    subject: Option<string>,
    notBefore: Option<Instant>,
    notAfter: Option<Instant>,
    daysUntilExpiry: Option<int>,
    subjectAlternativeNames: seq<string>,
    certificateInfo: Option<CertificateSnapshot>)

  datatype HttpProbeResult = HttpProbeResult(
    success: bool,
    errorCode: Option<string>,
    errorMessage: Option<string>,
    durationMs: nat,
    statusCode: Option<int>,
    ttfbMs: Option<int>,
    headers: map<string, string>)

  /** The result of whichever runner a check dispatched to. */
  datatype ProbeResult =
    | Dns(dns: DnsProbeResult)
    | Tls(tls: TlsProbeResult)
    | Http(http: HttpProbeResult)
  {
    function Success(): bool {
      match this
      case Dns(r) => r.success
      case Tls(r) => r.success
      case Http(r) => r.success
    }

    function ErrorCode(): Option<string> {
      match this
      case Dns(r) => r.errorCode
      case Tls(r) => r.errorCode
      case Http(r) => r.errorCode
    }

    function ErrorMessage(): Option<string> {
      match this
      case Dns(r) => r.errorMessage
      case Tls(r) => r.errorMessage
      case Http(r) => r.errorMessage
    }

    function DurationMs(): nat {
      match this
      case Dns(r) => r.durationMs
      case Tls(r) => r.durationMs
      case Http(r) => r.durationMs
    }
  }
}

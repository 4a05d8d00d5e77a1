/**
 * What the probes observe from the outside world. Real DNS queries, TCP/TLS
 * handshakes and HTTP exchanges are not modelled: their outcomes are inputs,
 * given as functions from the name or URL asked for to what came back.
 */
module Network {
  import opened Common

  /** The record types the resolver is asked for. */
  datatype QueryType = A | AAAA | CNAME

  /** One answer of a DNS response; `OtherRecord` stands for any type not queried. */
  datatype ResourceRecord =
    | ARecord(address: string, ttl: int)
    | AaaaRecord(address: string, ttl: int)
    | CnameRecord(canonicalName: string, ttl: int)
    | OtherRecord

  /** The exceptions `LookupClient.QueryAsync` can raise. */
  datatype DnsError =
    | DnsResponseError(code: string, message: string)
    | OtherDnsError(message: string)

  /** The outcome of one query: a response (possibly flagged `HasError`) or an exception. */
  datatype QueryOutcome =
    | Answered(hasError: bool, errorMessage: string, answers: seq<ResourceRecord>)
    | QueryThrew(error: DnsError)

  /** The `SslPolicyErrors` flags reported by certificate validation. */
  datatype PolicyErrors = PolicyErrors(notAvailable: bool, nameMismatch: bool, chainErrors: bool)
  {
    predicate IsNone() { !notAvailable && !nameMismatch && !chainErrors }
  }

  /** The parts of an X.509 certificate the services read; `sanText` is the
      formatted text of the subject-alternative-name extension (OID 2.5.29.17,
      section 4.2.1.6 of RFC 5280), absent when the extension is missing. */
  datatype Certificate = Certificate(
    issuer: string,
    subject: string,
    notBefore: Instant,
    notAfter: Instant,
    sanText: Option<string>)

  /** Connecting to port 443 and completing the TLS handshake. */
  datatype TlsOutcome =
    | Handshaken(certificate: Option<Certificate>, errors: PolicyErrors)
    | SocketFailed(message: string)
    | TlsFailed(message: string)

  /** Sending a GET request: a response, a timeout, a request failure, or any other exception. */
  datatype HttpOutcome =
    | Responded(status: int, reasonPhrase: string, ttfbMs: nat, headers: seq<(string, seq<string>)>)
    | TimedOut
    | RequestFailed(message: string)
    | OtherFailure(message: string)

  /** Everything one probe execution observes: the network, the runner's
      stopwatch and the clock readings taken around it. */
  datatype Env = Env(
    dnsQuery: (string, QueryType) -> QueryOutcome,
    tlsConnect: string -> TlsOutcome,
    httpSend: string -> HttpOutcome,
    elapsedMs: nat,
    startedAt: Instant,
    completedAt: Instant,
    evaluatedAt: Instant,
    localNow: Instant)
}

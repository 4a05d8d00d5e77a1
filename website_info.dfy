/**
 * The website-information lookup of the API: the normalized name, its A, AAAA
 * and CNAME records, and the certificate seen on a direct TLS connection.
 */
module WebsiteInfo {
  import opened Common
  import opened Text
  import opened Network
  import opened ProbeResults
  import DomainService
  import DnsProbe
  import TlsProbe

  /** `TlsInfoDto`. */
  datatype TlsInfo = TlsInfo(
    isValid: bool,
    issuer: Option<string>,
    subject: Option<string>,
    notBefore: Option<Instant>,
    notAfter: Option<Instant>,
    daysUntilExpiry: Option<int>,
    subjectAlternativeNames: seq<string>,
    errorMessage: Option<string>)

  /** `WebsiteInfoDto`. */
  datatype Info = Info(
    domain: string,
    ipAddresses: seq<string>,
    dnsRecords: seq<DnsRecord>,
    tlsInfo: Option<TlsInfo>,
    fetchedAt: Instant)

  /** `NormalizeDomainName`, statement by statement: the same algorithm as the
      domain service's, and the same result on every input. */
  method NormalizeDomainName(input: string) returns (domain: string)
    ensures domain == DomainService.NormalizeDomainName(input)
  {
    domain := ToLower(Trim(input));
    ghost var d0 := domain;
    TlsProbe.StripAt(domain, "http://", 7);
    if StartsWith(domain, "http://") {
      domain := domain[7..];
    }
    ghost var d1 := domain;
    TlsProbe.StripAt(domain, "https://", 8);
    if StartsWith(domain, "https://") {
      domain := domain[8..];
    }
    ghost var d2 := domain;
    TlsProbe.StripAt(domain, "www.", 4);
    if StartsWith(domain, "www.") {
      domain := domain[4..];
    }
    TlsProbe.HostPartSteps(input, d0, d1, d2, domain);
    ghost var d3 := domain;
    CutAtIndex(domain, '/');
    var slashIndex := IndexOf(domain, '/');
    if slashIndex >= 0 {
      domain := domain[..slashIndex];
    }
    ghost var d4 := domain;
    CutAtIndex(domain, ':');
    var colonIndex := IndexOf(domain, ':');
    if colonIndex >= 0 {
      domain := domain[..colonIndex];
    }
    TlsProbe.CutSteps(input, d3, d4, domain);
  }

  /** What `GetCertificateInfoDirectAsync` returns: any certificate obtained is
      reported valid, whatever its policy errors; its alternative names are
      never extracted. */
  function DirectCertificateInfo(outcome: TlsOutcome, localNow: Instant): (t: TlsInfo)
    ensures t.isValid <==> outcome.Handshaken? && outcome.certificate.Some?
    ensures t.isValid ==> t.errorMessage == None && t.notAfter == Some(outcome.certificate.value.notAfter)
    ensures t.isValid ==> (t.daysUntilExpiry.None? <==> outcome.certificate.value.notAfter <= localNow)
    ensures t.subjectAlternativeNames == []
    ensures outcome.Handshaken? && outcome.certificate.None? ==> t.errorMessage == Some("Certificate not found")
    ensures !outcome.Handshaken? ==> t.errorMessage == Some(outcome.message)
  {
    match outcome
    case SocketFailed(message) => TlsInfo(false, None, None, None, None, None, [], Some(message))
    case TlsFailed(message) => TlsInfo(false, None, None, None, None, None, [], Some(message))
    case Handshaken(certificate, _) =>
      if certificate.None? then TlsInfo(false, None, None, None, None, None, [], Some("Certificate not found"))
      else
        var cert := certificate.value;
        TlsInfo(true, Some(cert.issuer), Some(cert.subject), Some(cert.notBefore), Some(cert.notAfter),
                TlsProbe.DaysUntilExpiry(cert.notAfter, localNow), [], None)
  }

  /** What `GetWebsiteInfoAsync` returns for the normalized name `name`: each
      query contributes its answers when it reports no error; a query that
      throws ends the lookup with what was collected so far and no TLS info. */
  function Lookup(name: string, query: (string, QueryType) -> QueryOutcome, connect: string -> TlsOutcome,
                  localNow: Instant, fetchedAt: Instant): (w: Info)
    ensures w.domain == name && w.fetchedAt == fetchedAt
    ensures w.tlsInfo.Some? <==> !query(name, A).QueryThrew? && !query(name, AAAA).QueryThrew?
                                 && !query(name, CNAME).QueryThrew?
    ensures w.tlsInfo.Some? ==> w.tlsInfo == Some(DirectCertificateInfo(connect(name), localNow))
  {
    var qa := query(name, A);
    if qa.QueryThrew? then Info(name, [], [], None, fetchedAt)
    else
      var a4 := DnsProbe.Contributed(qa, A);
      LookupAfterA(name, query, connect, localNow, fetchedAt, DnsProbe.AddressesOf(a4), DnsProbe.RecordsOf(a4))
  }

  /** The rest of the lookup once the A answers are collected. */
  function LookupAfterA(name: string, query: (string, QueryType) -> QueryOutcome, connect: string -> TlsOutcome,
                        localNow: Instant, fetchedAt: Instant, ips: seq<string>, records: seq<DnsRecord>): (w: Info)
    ensures w.domain == name && w.fetchedAt == fetchedAt
    ensures w.tlsInfo.Some? <==> !query(name, AAAA).QueryThrew? && !query(name, CNAME).QueryThrew?
    ensures w.tlsInfo.Some? ==> w.tlsInfo == Some(DirectCertificateInfo(connect(name), localNow))
  {
    var q6 := query(name, AAAA);
    if q6.QueryThrew? then Info(name, ips, records, None, fetchedAt)
    else
      var a6 := DnsProbe.Contributed(q6, AAAA);
      LookupAfterAaaa(name, query, connect, localNow, fetchedAt,
                      ips + DnsProbe.AddressesOf(a6), records + DnsProbe.RecordsOf(a6))
  }

  /** The rest of the lookup once the A and AAAA answers are collected. */
  function LookupAfterAaaa(name: string, query: (string, QueryType) -> QueryOutcome, connect: string -> TlsOutcome,
                           localNow: Instant, fetchedAt: Instant, ips: seq<string>, records: seq<DnsRecord>): (w: Info)
    ensures w.domain == name && w.fetchedAt == fetchedAt && w.ipAddresses == ips
    ensures w.tlsInfo.Some? <==> !query(name, CNAME).QueryThrew?
    ensures w.tlsInfo.Some? ==> w.tlsInfo == Some(DirectCertificateInfo(connect(name), localNow))
  {
    var qc := query(name, CNAME);
    if qc.QueryThrew? then Info(name, ips, records, None, fetchedAt)
    else
      Info(name, ips, records + DnsProbe.RecordsOf(DnsProbe.Contributed(qc, CNAME)),
           Some(DirectCertificateInfo(connect(name), localNow)), fetchedAt)
  }

  /** `GetCertificateInfoDirectAsync(domain)`. */
  method GetCertificateInfoDirect(domain: string, connect: string -> TlsOutcome, localNow: Instant)
    returns (t: TlsInfo)
    ensures t == DirectCertificateInfo(connect(domain), localNow)
  {
    var outcome := connect(domain);
    if outcome.SocketFailed? || outcome.TlsFailed? {
      return TlsInfo(false, None, None, None, None, None, [], Some(outcome.message));
    }
    if outcome.certificate.Some? {
      var cert := outcome.certificate.value;
      var days: Option<int> := None;
      if cert.notAfter > localNow {
        days := Some((cert.notAfter - localNow) / DayMs);
      }
      return TlsInfo(true, Some(cert.issuer), Some(cert.subject), Some(cert.notBefore), Some(cert.notAfter),
                     days, [], None);
    }
    t := TlsInfo(false, None, None, None, None, None, [], Some("Certificate not found"));
  }

  /** `GetWebsiteInfoAsync(domain)`: normalize, then the three queries in order,
      each appending its answers in a loop, then the TLS lookup. */
  method GetWebsiteInfo(domain: string, query: (string, QueryType) -> QueryOutcome, connect: string -> TlsOutcome,
                        localNow: Instant, fetchedAt: Instant)
    returns (w: Info)
    ensures w == Lookup(DomainService.NormalizeDomainName(domain), query, connect, localNow, fetchedAt)
  {
    var name := NormalizeDomainName(domain);
    w := Info(name, [], [], None, fetchedAt);
    var aRecords := query(name, A);
    if aRecords.QueryThrew? {
      return;
    }
    var ips, records := w.ipAddresses, w.dnsRecords;
    if !aRecords.hasError {
      ips, records := DnsProbe.Collect(DnsProbe.OfType(aRecords.answers, A), true, ips, records);
    }
    assert ips == DnsProbe.AddressesOf(DnsProbe.Contributed(aRecords, A));
    assert records == DnsProbe.RecordsOf(DnsProbe.Contributed(aRecords, A));
    ghost var spec := LookupAfterA(name, query, connect, localNow, fetchedAt, ips, records);
    w := w.(ipAddresses := ips, dnsRecords := records);

    var aaaaRecords := query(name, AAAA);
    if aaaaRecords.QueryThrew? {
      return;
    }
    if !aaaaRecords.hasError {
      ips, records := DnsProbe.Collect(DnsProbe.OfType(aaaaRecords.answers, AAAA), true, ips, records);
    } else {
      assert ips + DnsProbe.AddressesOf([]) == ips && records + DnsProbe.RecordsOf([]) == records;
    }
    assert spec == LookupAfterAaaa(name, query, connect, localNow, fetchedAt, ips, records);
    w := w.(ipAddresses := ips, dnsRecords := records);

    var cnameRecords := query(name, CNAME);
    if cnameRecords.QueryThrew? {
      return;
    }
    if !cnameRecords.hasError {
      ips, records := DnsProbe.Collect(DnsProbe.OfType(cnameRecords.answers, CNAME), false, ips, records);
    } else {
      assert records + DnsProbe.RecordsOf([]) == records;
    }
    w := w.(ipAddresses := ips, dnsRecords := records);

    var tls := GetCertificateInfoDirect(name, connect, localNow);
    w := w.(tlsInfo := Some(tls));
  }

  // Properties of the lookup.

  /** Unlike the DNS probe, an error on the A query does not end the lookup:
      the AAAA and CNAME answers are still collected, and so is the certificate. */
  lemma AErrorDoesNotAbort(name: string, query: (string, QueryType) -> QueryOutcome, connect: string -> TlsOutcome,
                           localNow: Instant, fetchedAt: Instant)
    requires query(name, A).Answered? && query(name, A).hasError
    requires query(name, AAAA).Answered? && query(name, CNAME).Answered?
    ensures var w := Lookup(name, query, connect, localNow, fetchedAt);
      && w.dnsRecords == DnsProbe.RecordsOf(DnsProbe.Contributed(query(name, AAAA), AAAA))
                         + DnsProbe.RecordsOf(DnsProbe.Contributed(query(name, CNAME), CNAME))
      && w.tlsInfo.Some?
  {
    var w := Lookup(name, query, connect, localNow, fetchedAt);
    assert DnsProbe.RecordsOf([]) == [];
  }

  /** The address list is exactly the A and AAAA values of the record list, in
      order: CNAME targets never reach it. */
  lemma IpsAreAddressRecords(name: string, query: (string, QueryType) -> QueryOutcome, connect: string -> TlsOutcome,
                             localNow: Instant, fetchedAt: Instant)
    ensures var w := Lookup(name, query, connect, localNow, fetchedAt);
      w.ipAddresses == DnsProbe.AddressValues(w.dnsRecords)
  {
    var qa := query(name, A);
    if !qa.QueryThrew? {
      var a4 := DnsProbe.Contributed(qa, A);
      DnsProbe.AddressValuesOfAddresses(a4);
      var q6 := query(name, AAAA);
      if !q6.QueryThrew? {
        var a6 := DnsProbe.Contributed(q6, AAAA);
        DnsProbe.AddressValuesOfAddresses(a6);
        DnsProbe.AddressValuesAppend(DnsProbe.RecordsOf(a4), DnsProbe.RecordsOf(a6));
        var qc := query(name, CNAME);
        if !qc.QueryThrew? {
          var cn := DnsProbe.Contributed(qc, CNAME);
          DnsProbe.AddressValuesOfNames(cn);
          DnsProbe.AddressValuesAppend(DnsProbe.RecordsOf(a4) + DnsProbe.RecordsOf(a6), DnsProbe.RecordsOf(cn));
        }
      }
    }
  }

  /** When no query threw, each query contributes its answers unless it
      reported an error, in the order A, AAAA, CNAME; the IPs are the A
      addresses and then the AAAA ones; and the certificate is looked up. */
  lemma AnsweredLookup(name: string, query: (string, QueryType) -> QueryOutcome, connect: string -> TlsOutcome,
                       localNow: Instant, fetchedAt: Instant)
    requires query(name, A).Answered? && query(name, AAAA).Answered? && query(name, CNAME).Answered?
    ensures var w := Lookup(name, query, connect, localNow, fetchedAt);
      var qa := query(name, A);
      var q6 := query(name, AAAA);
      var qc := query(name, CNAME);
      var a4 := if qa.hasError then [] else DnsProbe.OfType(qa.answers, A);
      var a6 := if q6.hasError then [] else DnsProbe.OfType(q6.answers, AAAA);
      var cn := if qc.hasError then [] else DnsProbe.OfType(qc.answers, CNAME);
      && w.dnsRecords == DnsProbe.RecordsOf(a4) + DnsProbe.RecordsOf(a6) + DnsProbe.RecordsOf(cn)
      && w.ipAddresses == DnsProbe.AddressesOf(a4) + DnsProbe.AddressesOf(a6)
      && w.tlsInfo == Some(DirectCertificateInfo(connect(name), localNow))
  {
  }

  /** A query that throws ends the lookup with the records and IPs of the
      queries before it, and without TLS information. */
  lemma ThrowKeepsPartialResult(name: string, query: (string, QueryType) -> QueryOutcome, connect: string -> TlsOutcome,
                                localNow: Instant, fetchedAt: Instant)
    ensures var w := Lookup(name, query, connect, localNow, fetchedAt);
      var a4 := DnsProbe.Contributed(query(name, A), A);
      var a6 := DnsProbe.Contributed(query(name, AAAA), AAAA);
      && (query(name, A).QueryThrew? ==> w.dnsRecords == [] && w.ipAddresses == [] && w.tlsInfo == None)
      && (!query(name, A).QueryThrew? && query(name, AAAA).QueryThrew? ==>
            w.dnsRecords == DnsProbe.RecordsOf(a4) && w.ipAddresses == DnsProbe.AddressesOf(a4)
            && w.tlsInfo == None)
      && (!query(name, A).QueryThrew? && !query(name, AAAA).QueryThrew? && query(name, CNAME).QueryThrew? ==>
            w.dnsRecords == DnsProbe.RecordsOf(a4) + DnsProbe.RecordsOf(a6)
            && w.ipAddresses == DnsProbe.AddressesOf(a4) + DnsProbe.AddressesOf(a6)
            && w.tlsInfo == None)
  {
  }

  /** A certificate whose policy errors would fail the probe is still reported valid here. */
  lemma PolicyErrorsIgnored(cert: Certificate, errors: PolicyErrors, localNow: Instant, elapsedMs: nat)
    requires !errors.IsNone() && cert.notAfter > localNow
    ensures DirectCertificateInfo(Handshaken(Some(cert), errors), localNow).isValid
    ensures !TlsProbe.CertificateCheck(Handshaken(Some(cert), errors), localNow, elapsedMs).isValid
  {
  }
}

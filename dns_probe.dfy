/**
 * The DNS probe runner: an A query that must succeed, then AAAA and CNAME
 * queries whose errors are ignored, collected into one result.
 */
module DnsProbe {
  import opened Common
  import opened Network
  import opened ProbeResults

  /** `Answers.ARecords()`, `AaaaRecords()`, `CnameRecords()` select answers of one type. */
  predicate IsOfType(rr: ResourceRecord, t: QueryType) {
    match t
    case A => rr.ARecord?
    case AAAA => rr.AaaaRecord?
    case CNAME => rr.CnameRecord?
  }

  /** The answers of type `t`, in response order. */
  function OfType(answers: seq<ResourceRecord>, t: QueryType): (r: seq<ResourceRecord>)
    ensures |r| <= |answers|
    ensures forall k :: 0 <= k < |r| ==> IsOfType(r[k], t)
    ensures forall x :: x in r <==> x in answers && IsOfType(x, t)
    ensures AllQueried(r)
    ensures t != CNAME ==> AllAddresses(r)
  {
    if |answers| == 0 then []
    else
      var rest := OfType(answers[1..], t);
      assert forall x :: x in answers <==> x == answers[0] || x in answers[1..] by {
        assert answers == [answers[0]] + answers[1..];
      }
      if IsOfType(answers[0], t) then [answers[0]] + rest else rest
  }

  /** Every answer is of a type the runner queries. */
  predicate AllQueried(rrs: seq<ResourceRecord>) {
    forall k :: 0 <= k < |rrs| ==> !rrs[k].OtherRecord?
  }

  /** Every answer is an A or AAAA record. */
  predicate AllAddresses(rrs: seq<ResourceRecord>) {
    forall k :: 0 <= k < |rrs| ==> rrs[k].ARecord? || rrs[k].AaaaRecord?
  }

  /** The `DnsRecord` the runner stores for one answer. */
  function RecordOf(rr: ResourceRecord): (d: DnsRecord)
    requires !rr.OtherRecord?
    ensures rr.ARecord? <==> d.recordType == "A"
    ensures rr.AaaaRecord? <==> d.recordType == "AAAA"
    ensures rr.CnameRecord? <==> d.recordType == "CNAME"
  {
    match rr
    case ARecord(address, ttl) => DnsRecord("A", address, ttl)
    case AaaaRecord(address, ttl) => DnsRecord("AAAA", address, ttl)
    case CnameRecord(name, ttl) => DnsRecord("CNAME", name, ttl)
  }

  function RecordsOf(rrs: seq<ResourceRecord>): (r: seq<DnsRecord>)
    requires AllQueried(rrs)
    ensures |r| == |rrs|
    ensures forall k :: 0 <= k < |rrs| ==> r[k] == RecordOf(rrs[k])
  {
    seq(|rrs|, k requires 0 <= k < |rrs| => RecordOf(rrs[k]))
  }

  function AddressesOf(rrs: seq<ResourceRecord>): (r: seq<string>)
    requires AllAddresses(rrs)
    ensures |r| == |rrs|
    ensures forall k :: 0 <= k < |rrs| ==> r[k] == rrs[k].address
  {
    seq(|rrs|, k requires 0 <= k < |rrs| => rrs[k].address)
  }

  /** The code stored for an exception: the response code's name, or "UNKNOWN". */
  function ErrorCodeOf(e: DnsError): string {
    match e
    case DnsResponseError(code, _) => code
    case OtherDnsError(_) => "UNKNOWN"
  }

  /** The result when a query throws: what was collected so far, no snapshot. */
  function Thrown(e: DnsError, ips: seq<string>, records: seq<DnsRecord>, elapsedMs: nat): DnsProbeResult {
    DnsProbeResult(false, Some(ErrorCodeOf(e)), Some(e.message), elapsedMs, ips, records, None)
  }

  /** The answers a query contributes when it neither throws nor reports an error. */
  function Contributed(q: QueryOutcome, t: QueryType): (r: seq<ResourceRecord>)
    ensures forall k :: 0 <= k < |r| ==> IsOfType(r[k], t)
    ensures AllQueried(r)
    ensures t != CNAME ==> AllAddresses(r)
  {
    if q.Answered? && !q.hasError then OfType(q.answers, t) else []
  }

  /** What `ResolveAsync` returns for `domain`, given the resolver's answers and the stopwatch. */
  function Resolution(domain: string, query: (string, QueryType) -> QueryOutcome, elapsedMs: nat): (r: DnsProbeResult)
    ensures r.durationMs == elapsedMs
    ensures r.success ==> r.errorCode == None && r.errorMessage == None
    ensures r.success ==> |r.records| > 0 && r.recordsSnapshot == Some(r.records)
    ensures !r.success ==> r.errorCode.Some? && r.errorMessage.Some?
    ensures |r.ipAddresses| <= |r.records|
  {
    var aq := query(domain, A);
    if aq.QueryThrew? then Thrown(aq.error, [], [], elapsedMs)
    else if aq.hasError then
      DnsProbeResult(false, Some(aq.errorMessage), Some("DNS query failed: " + aq.errorMessage),
                     elapsedMs, [], [], None)
    else
      var a4 := OfType(aq.answers, A);
      AfterA(domain, query, elapsedMs, AddressesOf(a4), RecordsOf(a4))
  }

  /** The rest of the resolution once the A answers are collected. */
  function AfterA(domain: string, query: (string, QueryType) -> QueryOutcome, elapsedMs: nat,
                  ips: seq<string>, records: seq<DnsRecord>): (r: DnsProbeResult)
    requires |ips| <= |records|
    ensures r.durationMs == elapsedMs
    ensures r.success ==> r.errorCode == None && r.errorMessage == None
    ensures r.success ==> |r.records| > 0 && r.recordsSnapshot == Some(r.records)
    ensures !r.success ==> r.errorCode.Some? && r.errorMessage.Some?
    ensures |r.ipAddresses| <= |r.records|
  {
    var q6 := query(domain, AAAA);
    if q6.QueryThrew? then Thrown(q6.error, ips, records, elapsedMs)
    else
      var a6 := Contributed(q6, AAAA);
      AfterAaaa(domain, query, elapsedMs, ips + AddressesOf(a6), records + RecordsOf(a6))
  }

  /** The rest of the resolution once the A and AAAA answers are collected. */
  function AfterAaaa(domain: string, query: (string, QueryType) -> QueryOutcome, elapsedMs: nat,
                     ips: seq<string>, records: seq<DnsRecord>): (r: DnsProbeResult)
    requires |ips| <= |records|
    ensures r.durationMs == elapsedMs
    ensures r.success ==> r.errorCode == None && r.errorMessage == None
    ensures r.success ==> |r.records| > 0 && r.recordsSnapshot == Some(r.records)
    ensures !r.success ==> r.errorCode.Some? && r.errorMessage.Some?
    ensures |r.ipAddresses| <= |r.records|
  {
    var qc := query(domain, CNAME);
    if qc.QueryThrew? then Thrown(qc.error, ips, records, elapsedMs)
    else Completed(ips, records + RecordsOf(Contributed(qc, CNAME)), elapsedMs)
  }

  /** The result when no query threw: success means at least one record. */
  function Completed(ips: seq<string>, records: seq<DnsRecord>, elapsedMs: nat): (r: DnsProbeResult)
    ensures r.success <==> |records| > 0
    ensures r.records == records && r.recordsSnapshot == Some(records)
  {
    var ok := |records| > 0;
    DnsProbeResult(ok, if ok then None else Some("NXDOMAIN"),
                   if ok then None else Some("No DNS records found"),
                   elapsedMs, ips, records, Some(records))
  }

  /** Appends one stored record (and its address, for A and AAAA) per answer. */
  method Collect(rrs: seq<ResourceRecord>, withAddresses: bool, ips0: seq<string>, records0: seq<DnsRecord>)
    returns (ips: seq<string>, records: seq<DnsRecord>)
    requires AllQueried(rrs)
    requires withAddresses ==> AllAddresses(rrs)
    ensures withAddresses ==> ips == ips0 + AddressesOf(rrs)
    ensures !withAddresses ==> ips == ips0
    ensures records == records0 + RecordsOf(rrs)
  {
    ips, records := ips0, records0;
    for i := 0 to |rrs|
      invariant withAddresses ==> ips == ips0 + AddressesOf(rrs[..i])
      invariant !withAddresses ==> ips == ips0
      invariant records == records0 + RecordsOf(rrs[..i])
    {
      if withAddresses {
        assert AddressesOf(rrs[..i + 1]) == AddressesOf(rrs[..i]) + [rrs[i].address];
        ips := ips + [rrs[i].address];
      }
      assert RecordsOf(rrs[..i + 1]) == RecordsOf(rrs[..i]) + [RecordOf(rrs[i])];
      records := records + [RecordOf(rrs[i])];
    }
    assert rrs[..|rrs|] == rrs;
  }

  /** `ResolveAsync`: the three queries in order, with the early return on an A error. */
  method Resolve(domain: string, query: (string, QueryType) -> QueryOutcome, elapsedMs: nat)
    returns (r: DnsProbeResult)
    ensures r == Resolution(domain, query, elapsedMs)
  {
    var aQuery := query(domain, A);
    if aQuery.QueryThrew? {
      return Thrown(aQuery.error, [], [], elapsedMs);
    }
    if aQuery.hasError {
      return DnsProbeResult(false, Some(aQuery.errorMessage), Some("DNS query failed: " + aQuery.errorMessage),
                            elapsedMs, [], [], None);
    }
    var aRecords := OfType(aQuery.answers, A);
    var ips, records := Collect(aRecords, true, [], []);
    assert ips == AddressesOf(aRecords) && records == RecordsOf(aRecords);

    var aaaaQuery := query(domain, AAAA);
    if aaaaQuery.QueryThrew? {
      return Thrown(aaaaQuery.error, ips, records, elapsedMs);
    }
    ghost var spec := AfterA(domain, query, elapsedMs, ips, records);
    if !aaaaQuery.hasError {
      ips, records := Collect(OfType(aaaaQuery.answers, AAAA), true, ips, records);
    } else {
      assert ips + AddressesOf([]) == ips && records + RecordsOf([]) == records;
    }
    assert spec == AfterAaaa(domain, query, elapsedMs, ips, records);

    var cnameQuery := query(domain, CNAME);
    if cnameQuery.QueryThrew? {
      return Thrown(cnameQuery.error, ips, records, elapsedMs);
    }
    if !cnameQuery.hasError {
      ips, records := Collect(OfType(cnameQuery.answers, CNAME), false, ips, records);
    } else {
      assert records + RecordsOf([]) == records;
    }
    assert spec == Completed(ips, records, elapsedMs);

    var success := |records| > 0;
    r := DnsProbeResult(success, None, None, elapsedMs, ips, records, None);
    if !success {
      r := r.(errorCode := Some("NXDOMAIN"), errorMessage := Some("No DNS records found"));
    }
    r := r.(recordsSnapshot := Some(records));
  }

  // Properties of the resolution.

  /** When every query returned a response and the A query reported no error,
      the probe succeeds exactly when some record was found, and the snapshot
      holds the records. */
  lemma SuccessIffRecords(domain: string, query: (string, QueryType) -> QueryOutcome, elapsedMs: nat)
    requires query(domain, A).Answered? && !query(domain, A).hasError
    requires query(domain, AAAA).Answered? && query(domain, CNAME).Answered?
    ensures var r := Resolution(domain, query, elapsedMs);
      (r.success <==> |r.records| > 0) && r.recordsSnapshot == Some(r.records)
      && (!r.success ==> r.errorCode == Some("NXDOMAIN") && r.errorMessage == Some("No DNS records found"))
  {
  }

  /** When every query returned a response and the A query reported no error,
      the records are the A answers, then the AAAA answers, then the CNAME
      answers, where a query that reported an error adds nothing; the IP list
      is the A addresses followed by the AAAA ones. */
  lemma AnsweredRecords(domain: string, query: (string, QueryType) -> QueryOutcome, elapsedMs: nat)
    requires query(domain, A).Answered? && !query(domain, A).hasError
    requires query(domain, AAAA).Answered? && query(domain, CNAME).Answered?
    ensures var r := Resolution(domain, query, elapsedMs);
      var q6 := query(domain, AAAA);
      var qc := query(domain, CNAME);
      var a4 := OfType(query(domain, A).answers, A);
      var a6 := if q6.hasError then [] else OfType(q6.answers, AAAA);
      var cn := if qc.hasError then [] else OfType(qc.answers, CNAME);
      && r.records == RecordsOf(a4) + RecordsOf(a6) + RecordsOf(cn)
      && r.ipAddresses == AddressesOf(a4) + AddressesOf(a6)
  {
  }

  /** An error reported on the A query ends the probe with no records, whatever
      AAAA and CNAME would have answered. */
  lemma AErrorShortCircuits(domain: string, query: (string, QueryType) -> QueryOutcome, elapsedMs: nat)
    requires query(domain, A).Answered? && query(domain, A).hasError
    ensures var r := Resolution(domain, query, elapsedMs);
      var msg := query(domain, A).errorMessage;
      !r.success && r.errorCode == Some(msg) && r.errorMessage == Some("DNS query failed: " + msg)
      && r.records == [] && r.ipAddresses == [] && r.recordsSnapshot == None
  {
  }

  /** A query that throws fails the probe but keeps the records collected
      before it, and leaves the snapshot unset. */
  lemma ThrowKeepsEarlierRecords(domain: string, query: (string, QueryType) -> QueryOutcome, elapsedMs: nat)
    requires query(domain, A).Answered? && !query(domain, A).hasError
    requires query(domain, AAAA).Answered? && query(domain, CNAME).QueryThrew?
    ensures var r := Resolution(domain, query, elapsedMs);
      var e := query(domain, CNAME).error;
      !r.success && r.errorCode == Some(ErrorCodeOf(e)) && r.errorMessage == Some(e.message)
      && r.recordsSnapshot == None
      && r.records == RecordsOf(OfType(query(domain, A).answers, A)) + RecordsOf(Contributed(query(domain, AAAA), AAAA))
  {
  }

  /** An exception on the first query fails the probe with nothing collected:
      a DNS response exception is reported by its response code, any other
      exception as "UNKNOWN", and the message is the exception's own. */
  lemma ExceptionClassified(domain: string, query: (string, QueryType) -> QueryOutcome, elapsedMs: nat)
    requires query(domain, A).QueryThrew?
    ensures var r := Resolution(domain, query, elapsedMs);
      var e := query(domain, A).error;
      && !r.success && r.records == [] && r.ipAddresses == [] && r.recordsSnapshot == None
      && (e.DnsResponseError? ==> r.errorCode == Some(e.code))
      && (e.OtherDnsError? ==> r.errorCode == Some("UNKNOWN"))
      && r.errorMessage == Some(e.message)
  {
  }

  // The address list, characterised from the record list.

  predicate IsAddressRecord(d: DnsRecord) {
    d.recordType == "A" || d.recordType == "AAAA"
  }

  /** The values of the A and AAAA entries of a record list, in order. */
  function AddressValues(records: seq<DnsRecord>): (r: seq<string>)
    ensures |r| <= |records|
  {
    if |records| == 0 then []
    else if IsAddressRecord(records[0]) then [records[0].value] + AddressValues(records[1..])
    else AddressValues(records[1..])
  }

  lemma {:induction false} AddressValuesAppend(xs: seq<DnsRecord>, ys: seq<DnsRecord>)
    ensures AddressValues(xs + ys) == AddressValues(xs) + AddressValues(ys)
  {
    if |xs| > 0 {
      assert (xs + ys)[0] == xs[0];
      assert (xs + ys)[1..] == xs[1..] + ys;
      AddressValuesAppend(xs[1..], ys);
    } else {
      assert xs + ys == ys;
    }
  }

  lemma {:induction false} AddressValuesOfAddresses(rrs: seq<ResourceRecord>)
    requires AllQueried(rrs) && AllAddresses(rrs)
    ensures AddressValues(RecordsOf(rrs)) == AddressesOf(rrs)
  {
    if |rrs| > 0 {
      assert RecordsOf(rrs)[1..] == RecordsOf(rrs[1..]);
      assert AddressesOf(rrs) == [rrs[0].address] + AddressesOf(rrs[1..]);
      AddressValuesOfAddresses(rrs[1..]);
    }
  }

  lemma {:induction false} AddressValuesOfNames(rrs: seq<ResourceRecord>)
    requires forall k :: 0 <= k < |rrs| ==> rrs[k].CnameRecord?
    ensures AddressValues(RecordsOf(rrs)) == []
  {
    if |rrs| > 0 {
      assert RecordsOf(rrs)[1..] == RecordsOf(rrs[1..]);
      AddressValuesOfNames(rrs[1..]);
    }
  }

  /** `IpAddresses` is exactly the values of the A and AAAA entries of
      `Records`, in the same order: CNAME targets never appear in it. */
  lemma IpsAreAddressRecords(domain: string, query: (string, QueryType) -> QueryOutcome, elapsedMs: nat)
    ensures var r := Resolution(domain, query, elapsedMs);
      r.ipAddresses == AddressValues(r.records)
  {
    var aq := query(domain, A);
    if aq.Answered? && !aq.hasError {
      var a4 := OfType(aq.answers, A);
      AddressValuesOfAddresses(a4);
      var q6 := query(domain, AAAA);
      if q6.Answered? {
        var a6 := Contributed(q6, AAAA);
        AddressValuesOfAddresses(a6);
        AddressValuesAppend(RecordsOf(a4), RecordsOf(a6));
        var qc := query(domain, CNAME);
        if qc.Answered? {
          var cn := Contributed(qc, CNAME);
          AddressValuesOfNames(cn);
          AddressValuesAppend(RecordsOf(a4) + RecordsOf(a6), RecordsOf(cn));
        }
      }
    }
  }

  /** The position of a record type in the order the queries are made. */
  function TypeRank(d: DnsRecord): int {
    if d.recordType == "A" then 0 else if d.recordType == "AAAA" then 1 else 2
  }

  /** The record list is grouped by query: all A entries, then AAAA, then CNAME. */
  lemma RecordsInQueryOrder(domain: string, query: (string, QueryType) -> QueryOutcome, elapsedMs: nat)
    ensures var r := Resolution(domain, query, elapsedMs);
      forall i, j :: 0 <= i < j < |r.records| ==> TypeRank(r.records[i]) <= TypeRank(r.records[j])
  {
    var qa := query(domain, A);
    if qa.Answered? && !qa.hasError {
      var ra := RecordsOf(OfType(qa.answers, A));
      var r6 := RecordsOf(Contributed(query(domain, AAAA), AAAA));
      var rc := RecordsOf(Contributed(query(domain, CNAME), CNAME));
      var records := Resolution(domain, query, elapsedMs).records;
      if query(domain, AAAA).QueryThrew? {
        assert records == ra;
        Grouped(ra, |ra|, |ra|);
      } else if query(domain, CNAME).QueryThrew? {
        assert records == ra + r6;
        Grouped(ra + r6, |ra|, |ra + r6|);
      } else {
        assert records == ra + r6 + rc;
        Grouped(ra + r6 + rc, |ra|, |ra + r6|);
      }
    }
  }

  /** A list made of rank-0 entries, then rank-1, then rank-2 is ordered by rank. */
  lemma Grouped(s: seq<DnsRecord>, n1: nat, n2: nat)
    requires n1 <= n2 <= |s|
    requires forall k :: 0 <= k < n1 ==> TypeRank(s[k]) == 0
    requires forall k :: n1 <= k < n2 ==> TypeRank(s[k]) == 1
    requires forall k :: n2 <= k < |s| ==> TypeRank(s[k]) == 2
    ensures forall i, j :: 0 <= i < j < |s| ==> TypeRank(s[i]) <= TypeRank(s[j])
  {
  }
}

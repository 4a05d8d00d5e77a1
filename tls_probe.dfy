/**
 * The TLS probe runner: connect to port 443, capture the server certificate
 * during the handshake (accepting it whatever the validation says), and
 * classify what was seen.
 */
module TlsProbe {
  import opened Common
  import opened Text
  import opened Network
  import opened ProbeResults
  import DomainService
  import Queries

  // Policy errors as text.

  const RemoteCertificateNotAvailable: string := "RemoteCertificateNotAvailable"
  const RemoteCertificateNameMismatch: string := "RemoteCertificateNameMismatch"
  const RemoteCertificateChainErrors: string := "RemoteCertificateChainErrors"

  /** The names of the flags that are set, in ascending flag order (1, 2, 4). */
  function PolicyErrorNames(e: PolicyErrors): (names: seq<string>)
    ensures |names| == 0 <==> e.IsNone()
    ensures |names| > 0 ==> |names[0]| > 0 && names[0][0] == 'R'
  {
    (if e.notAvailable then [RemoteCertificateNotAvailable] else [])
    + (if e.nameMismatch then [RemoteCertificateNameMismatch] else [])
    + (if e.chainErrors then [RemoteCertificateChainErrors] else [])
  }

  /** `SslPolicyErrors.ToString()`: "None", or the set flags' names joined by ", ". */
  function PolicyErrorsText(e: PolicyErrors): (t: string)
    ensures t == "None" <==> e.IsNone()
  {
    var names := PolicyErrorNames(e);
    if |names| == 0 then "None"
    else
      JoinHead(", ", names);
      assert Join(", ", names)[0] == 'R';
      Join(", ", names)
  }

  /** A single flag renders as its own name. */
  lemma SingleFlagText()
    ensures PolicyErrorsText(PolicyErrors(true, false, false)) == RemoteCertificateNotAvailable
    ensures PolicyErrorsText(PolicyErrors(false, true, false)) == RemoteCertificateNameMismatch
    ensures PolicyErrorsText(PolicyErrors(false, false, true)) == RemoteCertificateChainErrors
  {
  }

  // Subject alternative names.

  const SanMarker: string := "DNS Name="

  predicate IsSanLine(line: string) {
    Contains(line, SanMarker)
  }

  /** The name a marked line contributes: `line.Split("DNS Name=")[1].Trim()`. */
  function SanOf(line: string): (name: string)
    requires IsSanLine(line)
    ensures IsTrimmed(name)
  {
    Trim(SecondPiece(line, SanMarker))
  }

  /** The names the loop of `ExtractSanNames` collects from `lines`, in order. */
  function SanLines(lines: seq<string>): (r: seq<string>)
    ensures |r| <= |lines|
    ensures forall k :: 0 <= k < |r| ==> IsTrimmed(r[k])
  {
    if |lines| == 0 then []
    else
      var last := lines[|lines| - 1];
      SanLines(lines[..|lines| - 1]) + (if IsSanLine(last) then [SanOf(last)] else [])
  }

  /** One name per marked line: the k-th name is the name of the k-th line
      that carries the marker. */
  lemma {:induction false} SanLinesAreMarkedLines(lines: seq<string>)
    ensures var marked := Queries.Filter(lines, IsSanLine);
      && |SanLines(lines)| == |marked|
      && forall k :: 0 <= k < |marked| ==> SanLines(lines)[k] == SanOf(marked[k])
  {
    if |lines| > 0 {
      var init := lines[..|lines| - 1];
      var last := lines[|lines| - 1];
      SanLinesAreMarkedLines(init);
      Queries.LastSplit(lines);
      Queries.FilterSnoc(init, last, IsSanLine);
      var m0 := Queries.Filter(init, IsSanLine);
      var m := Queries.Filter(lines, IsSanLine);
      var names0 := SanLines(init);
      var names := SanLines(lines);
      assert names == names0 + (if IsSanLine(last) then [SanOf(last)] else []);
      assert m == m0 + (if IsSanLine(last) then [last] else []);
      forall k | 0 <= k < |m|
        ensures names[k] == SanOf(m[k])
      {
        if k < |m0| {
          assert names[k] == names0[k] && m[k] == m0[k];
        }
      }
    }
  }

  /** Every collected name is trimmed and comes from a line that carries the marker. */
  lemma SanNamesAreTrimmed(lines: seq<string>)
    ensures forall name :: name in SanLines(lines) ==>
      IsTrimmed(name) && exists line :: line in lines && IsSanLine(line) && name == SanOf(line)
  {
    SanLinesAreMarkedLines(lines);
    var marked := Queries.Filter(lines, IsSanLine);
    forall name | name in SanLines(lines)
      ensures IsTrimmed(name) && exists line :: line in lines && IsSanLine(line) && name == SanOf(line)
    {
      var k :| 0 <= k < |SanLines(lines)| && SanLines(lines)[k] == name;
      assert marked[k] in marked;
    }
  }

  /** The names of a certificate: none without the extension, else those of
      the lines of its formatted text. */
  function SanNames(cert: Certificate): (names: seq<string>)
    ensures cert.sanText.None? ==> names == []
    ensures forall k :: 0 <= k < |names| ==> IsTrimmed(names[k])
  {
    if cert.sanText.None? then [] else SanLines(Split(cert.sanText.value, '\n'))
  }

  /** `ExtractSanNames`: scan the lines of the extension's text for "DNS Name=". */
  method ExtractSanNames(cert: Certificate) returns (sans: seq<string>)
    ensures sans == SanNames(cert)
  {
    sans := [];
    if cert.sanText.Some? {
      var lines := Split(cert.sanText.value, '\n');
      for i := 0 to |lines|
        invariant sans == SanLines(lines[..i])
      {
        assert lines[..i + 1][..i] == lines[..i];
        if Contains(lines[i], SanMarker) {
          var name := Trim(SecondPiece(lines[i], SanMarker));
          sans := sans + [name];
        }
      }
      assert lines[..|lines|] == lines;
    }
  }

  // Classification.

  /** The whole days left, truncated as the `(int)` cast of `TotalDays` does, while the certificate has not expired. */
  function DaysUntilExpiry(notAfter: Instant, localNow: Instant): (d: Option<int>)
    ensures d.Some? <==> notAfter > localNow
    ensures d.Some? ==> d.value >= 0 && d.value * DayMs <= notAfter - localNow < (d.value + 1) * DayMs
  {
    if notAfter > localNow then Some((notAfter - localNow) / DayMs) else None
  }

  /** The default result object: nothing captured, not valid, not successful. */
  function Failure(code: string, message: string, elapsedMs: nat): TlsProbeResult {
    TlsProbeResult(false, Some(code), Some(message), elapsedMs, false, None, None, None, None, None, [], None)
  }

  /** The result for a captured certificate with the validation's policy errors. */
  function Captured(cert: Certificate, errors: PolicyErrors, localNow: Instant, elapsedMs: nat): TlsProbeResult {
    var days := DaysUntilExpiry(cert.notAfter, localNow);
    var valid := errors.IsNone() && days.Some?;
    var sans := SanNames(cert);
    var info := CertificateSnapshot(cert.issuer, cert.subject, cert.notBefore, cert.notAfter, days, sans, valid);
    TlsProbeResult(true,
                   if valid then None else Some("INVALID_CERTIFICATE"),
                   if valid then None else Some(PolicyErrorsText(errors)),
                   elapsedMs, valid, Some(cert.issuer), Some(cert.subject), Some(cert.notBefore),
                   Some(cert.notAfter), days, sans, Some(info))
  }

  /** What `CheckCertificateAsync` returns for the outcome of connecting and handshaking. */
  function CertificateCheck(outcome: TlsOutcome, localNow: Instant, elapsedMs: nat): (r: TlsProbeResult)
    ensures r.durationMs == elapsedMs
    ensures r.success <==> outcome.Handshaken? && outcome.certificate.Some?
    ensures outcome.Handshaken? && outcome.certificate.None? ==>
      r.errorCode == Some("NO_CERTIFICATE") && r.errorMessage == Some("No certificate found")
    ensures outcome.SocketFailed? ==>
      r.errorCode == Some("CONNECTION_FAILED") && r.errorMessage == Some(outcome.message)
    ensures outcome.TlsFailed? ==> r.errorCode == Some("UNKNOWN") && r.errorMessage == Some(outcome.message)
    ensures r.success ==> var cert := outcome.certificate.value;
      && (r.isValid <==> outcome.errors.IsNone() && cert.notAfter > localNow)
      && (r.isValid ==> r.errorCode == None && r.errorMessage == None)
      && (!r.isValid ==> r.errorCode == Some("INVALID_CERTIFICATE")
                         && r.errorMessage == Some(PolicyErrorsText(outcome.errors)))
      && r.daysUntilExpiry == DaysUntilExpiry(cert.notAfter, localNow)
      && r.issuer == Some(cert.issuer) && r.subject == Some(cert.subject)
      && r.notBefore == Some(cert.notBefore) && r.notAfter == Some(cert.notAfter)
      && r.subjectAlternativeNames == SanNames(cert)
      && r.certificateInfo == Some(CertificateSnapshot(cert.issuer, cert.subject, cert.notBefore,
           cert.notAfter, r.daysUntilExpiry, r.subjectAlternativeNames, r.isValid))
    ensures !r.success ==> !r.isValid && r.certificateInfo == None && r.errorCode.Some?
  {
    match outcome
    case SocketFailed(message) => Failure("CONNECTION_FAILED", message, elapsedMs)
    case TlsFailed(message) => Failure("UNKNOWN", message, elapsedMs)
    case Handshaken(certificate, errors) =>
      if certificate.None? then Failure("NO_CERTIFICATE", "No certificate found", elapsedMs)
      else Captured(certificate.value, errors, localNow, elapsedMs)
  }

  /** `CheckCertificateAsync(host)`: connect, handshake, then fill the result field by field. */
  method CheckCertificate(host: string, connect: string -> TlsOutcome, localNow: Instant, elapsedMs: nat)
    returns (r: TlsProbeResult)
    ensures r == CertificateCheck(connect(host), localNow, elapsedMs)
  {
    r := TlsProbeResult(false, None, None, 0, false, None, None, None, None, None, [], None);
    var outcome := connect(host);
    if outcome.SocketFailed? {
      r := r.(success := false, errorCode := Some("CONNECTION_FAILED"), errorMessage := Some(outcome.message));
    } else if outcome.TlsFailed? {
      r := r.(success := false, errorCode := Some("UNKNOWN"), errorMessage := Some(outcome.message));
    } else {
      var certificate := outcome.certificate;
      var errors := outcome.errors;
      if certificate.Some? {
        var cert := certificate.value;
        r := r.(isValid := errors.IsNone(), issuer := Some(cert.issuer), subject := Some(cert.subject),
                notBefore := Some(cert.notBefore), notAfter := Some(cert.notAfter));
        if cert.notAfter > localNow {
          r := r.(daysUntilExpiry := Some((cert.notAfter - localNow) / DayMs));
        } else {
          r := r.(daysUntilExpiry := None, isValid := false);
        }
        var sans := ExtractSanNames(cert);
        r := r.(subjectAlternativeNames := sans);
        r := r.(certificateInfo := Some(CertificateSnapshot(cert.issuer, cert.subject, cert.notBefore,
                  cert.notAfter, r.daysUntilExpiry, r.subjectAlternativeNames, r.isValid)));
      }
      r := r.(success := certificate.Some?);
      if !r.success {
        r := r.(errorCode := Some("NO_CERTIFICATE"), errorMessage := Some("No certificate found"));
      } else if !r.isValid {
        r := r.(errorCode := Some("INVALID_CERTIFICATE"), errorMessage := Some(PolicyErrorsText(errors)));
      }
    }
    r := r.(durationMs := elapsedMs);
  }

  /** `ExtractHost`, statement by statement; it computes the same name as the domain service's normalizer. */
  method ExtractHost(input: string) returns (host: string)
    ensures host == DomainService.NormalizeDomainName(input)
  {
    host := ToLower(Trim(input));
    ghost var h0 := host;
    StripAt(host, "http://", 7);
    if StartsWith(host, "http://") {
      host := host[7..];
    }
    ghost var h1 := host;
    StripAt(host, "https://", 8);
    if StartsWith(host, "https://") {
      host := host[8..];
    }
    ghost var h2 := host;
    StripAt(host, "www.", 4);
    if StartsWith(host, "www.") {
      host := host[4..];
    }
    HostPartSteps(input, h0, h1, h2, host);
    ghost var h3 := host;
    CutAtIndex(host, '/');
    var slashIndex := IndexOf(host, '/');
    if slashIndex >= 0 {
      host := host[..slashIndex];
    }
    ghost var h4 := host;
    CutAtIndex(host, ':');
    var colonIndex := IndexOf(host, ':');
    if colonIndex >= 0 {
      host := host[..colonIndex];
    }
    CutSteps(input, h3, h4, host);
  }

  /** Removing a prefix of known length `n`. */
  lemma StripAt(s: string, p: string, n: nat)
    requires n == |p|
    ensures StartsWith(s, p) ==> n <= |s| && DomainService.StripPrefix(s, p) == s[n..]
    ensures !StartsWith(s, p) ==> DomainService.StripPrefix(s, p) == s
  {
  }

  /** The three prefix removals of the host part, one at a time. */
  lemma HostPartSteps(input: string, h0: string, h1: string, h2: string, h3: string)
    requires h0 == ToLower(Trim(input))
    requires h1 == DomainService.StripPrefix(h0, "http://")
    requires h2 == DomainService.StripPrefix(h1, "https://")
    requires h3 == DomainService.StripPrefix(h2, "www.")
    ensures h3 == DomainService.HostPart(input)
  {
  }

  /** The two cuts of the host part, one at a time. */
  lemma CutSteps(input: string, h3: string, h4: string, h5: string)
    requires h3 == DomainService.HostPart(input)
    requires h4 == CutAt(h3, '/')
    requires h5 == CutAt(h4, ':')
    ensures h5 == DomainService.NormalizeDomainName(input)
  {
    DomainService.NormalizeIsCut(input);
  }

  /** `RunProbeAsync(target)`: the certificate check of the extracted host. */
  method RunProbe(target: string, connect: string -> TlsOutcome, localNow: Instant, elapsedMs: nat)
    returns (r: TlsProbeResult)
    ensures r == CertificateCheck(connect(DomainService.NormalizeDomainName(target)), localNow, elapsedMs)
  {
    var host := ExtractHost(target);
    r := CheckCertificate(host, connect, localNow, elapsedMs);
  }

  // Properties of the classification.

  /** A certificate past its expiry is never valid and has no day count,
      whatever its policy errors. */
  lemma ExpiredIsInvalid(cert: Certificate, errors: PolicyErrors, localNow: Instant, elapsedMs: nat)
    requires cert.notAfter <= localNow
    ensures var r := CertificateCheck(Handshaken(Some(cert), errors), localNow, elapsedMs);
      r.success && !r.isValid && r.daysUntilExpiry == None && r.errorCode == Some("INVALID_CERTIFICATE")
  {
  }

  /** The error message of an invalid certificate is the policy-error text,
      so an expired certificate that passed validation reports "None". */
  lemma ExpiredWithoutPolicyErrorsSaysNone(cert: Certificate, localNow: Instant, elapsedMs: nat)
    requires cert.notAfter <= localNow
    ensures CertificateCheck(Handshaken(Some(cert), PolicyErrors(false, false, false)), localNow, elapsedMs).errorMessage
      == Some("None")
  {
  }

  /** A successful probe's error code is unset exactly when the certificate is valid. */
  lemma ErrorCodeIffInvalid(outcome: TlsOutcome, localNow: Instant, elapsedMs: nat)
    ensures var r := CertificateCheck(outcome, localNow, elapsedMs);
      r.success ==> (r.errorCode.None? <==> r.isValid)
  {
  }
}

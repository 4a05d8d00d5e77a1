/**
 * The HTTP probe runner: send a GET to the normalized URL and classify the
 * response by its status code, recording the time to first byte and the
 * response headers.
 */
module HttpProbe {
  import opened Common
  import opened Text
  import opened Network
  import opened ProbeResults

  predicate HasScheme(url: string) {
    StartsWith(url, "http://") || StartsWith(url, "https://")
  }

  /** `NormalizeUrl`: the trimmed input, prefixed with "https://" unless it already names a scheme. */
  function NormalizeUrl(input: string): (url: string)
    ensures HasScheme(url) && IsTrimmed(url)
    ensures HasScheme(Trim(input)) ==> url == Trim(input)
  {
    var t := Trim(input);
    if !StartsWith(t, "http://") && !StartsWith(t, "https://") then
      SecureSchemeAdded(t);
      "https://" + t
    else t
  }

  /** The normalized URL names a scheme, is trimmed and ends with the trimmed
      input, which it equals exactly when the input already named a scheme. */
  lemma NormalizeUrlShape(input: string)
    ensures var url := NormalizeUrl(input);
      && HasScheme(url)
      && IsTrimmed(url)
      && |Trim(input)| <= |url| && url[|url| - |Trim(input)|..] == Trim(input)
      && (HasScheme(Trim(input)) <==> url == Trim(input))
  {
    var t := Trim(input);
    if !HasScheme(t) {
      SecureSchemeAdded(t);
    }
  }

  /** Prefixing "https://" to a trimmed string gives a trimmed URL with that scheme. */
  lemma SecureSchemeAdded(t: string)
    requires IsTrimmed(t)
    ensures var u := "https://" + t; StartsWith(u, "https://") && IsTrimmed(u) && u[|u| - |t|..] == t && u != t
  {
    var u := "https://" + t;
    assert u[..8] == "https://";
    assert u[8..] == t;
  }

  /** Normalizing a normalized URL changes nothing. */
  lemma NormalizeUrlIdempotent(input: string)
    ensures NormalizeUrl(NormalizeUrl(input)) == NormalizeUrl(input)
  {
    NormalizeUrlShape(input);
    var url := NormalizeUrl(input);
    TrimOfTrimmed(url);
  }

  /** `IsSuccessStatusCode`: the 2xx class (section 15.3 of RFC 9110). */
  predicate IsSuccessStatusCode(status: int)
    ensures IsSuccessStatusCode(status) <==> status / 100 == 2
  {
    200 <= status <= 299
  }

  /** `Headers[key] = string.Join(", ", values)` for each response header in turn;
      a later occurrence of a key overwrites an earlier one. */
  function HeaderMap(headers: seq<(string, seq<string>)>): (m: map<string, string>)
    ensures forall key :: key in m <==> exists i :: 0 <= i < |headers| && headers[i].0 == key
  {
    if |headers| == 0 then map[]
    else
      var last := headers[|headers| - 1];
      var m0 := HeaderMap(headers[..|headers| - 1]);
      assert forall i :: 0 <= i < |headers| - 1 ==> headers[..|headers| - 1][i] == headers[i];
      m0[last.0 := Join(", ", last.1)]
  }

  /** A key carries the joined values of its last occurrence. */
  lemma {:induction false} HeaderMapLastWins(headers: seq<(string, seq<string>)>, i: nat)
    requires i < |headers|
    requires forall j :: i < j < |headers| ==> headers[j].0 != headers[i].0
    ensures HeaderMap(headers)[headers[i].0] == Join(", ", headers[i].1)
  {
    if i < |headers| - 1 {
      var init := headers[..|headers| - 1];
      assert init[i] == headers[i];
      HeaderMapLastWins(init, i);
    }
  }

  /** The "HTTP_" error code names the status, so distinct statuses give distinct codes. */
  lemma ErrorCodeNamesStatus(s1: int, s2: int)
    requires "HTTP_" + IntToString(s1) == "HTTP_" + IntToString(s2)
    ensures s1 == s2
  {
    var a := "HTTP_" + IntToString(s1);
    assert a[5..] == IntToString(s1);
    assert ("HTTP_" + IntToString(s2))[5..] == IntToString(s2);
    IntToStringInjective(s1, s2);
  }

  lemma IntToStringInjective(m: int, n: int)
    requires IntToString(m) == IntToString(n)
    ensures m == n
  {
    IntToStringSign(m);
    IntToStringSign(n);
    if m < 0 {
      assert IntToString(m)[1..] == NatToString(-m);
      assert IntToString(n)[1..] == NatToString(-n);
      NatToStringInjective(-m, -n);
    } else {
      NatToStringInjective(m, n);
    }
  }

  /** The rendering starts with '-' exactly for negative numbers. */
  lemma IntToStringSign(i: int)
    ensures IntToString(i)[0] == '-' <==> i < 0
  {
    if i >= 0 {
      assert '0' <= NatToString(i)[0] <= '9';
    }
  }

  function Failure(code: string, message: string, elapsedMs: nat): HttpProbeResult {
    HttpProbeResult(false, Some(code), Some(message), elapsedMs, None, None, map[])
  }

  /** What `CheckUrlAsync` returns for the outcome of sending the request. */
  function UrlCheck(outcome: HttpOutcome, elapsedMs: nat): (r: HttpProbeResult)
    ensures r.durationMs == elapsedMs
    ensures r.success <==> outcome.Responded? && IsSuccessStatusCode(outcome.status)
    ensures r.statusCode.Some? <==> outcome.Responded?
    ensures outcome.Responded? ==>
      && r.statusCode == Some(outcome.status) && r.ttfbMs == Some(outcome.ttfbMs)
      && r.headers == HeaderMap(outcome.headers)
      && (r.success ==> r.errorCode == None && r.errorMessage == None)
      && (!r.success ==> && r.errorCode == Some("HTTP_" + IntToString(outcome.status))
                         && r.errorMessage == Some("HTTP " + IntToString(outcome.status) + " " + outcome.reasonPhrase))
    ensures outcome.TimedOut? ==> r.errorCode == Some("TIMEOUT") && r.errorMessage == Some("Request timed out")
    ensures outcome.RequestFailed? ==> r.errorCode == Some("HTTP_ERROR") && r.errorMessage == Some(outcome.message)
    ensures outcome.OtherFailure? ==> r.errorCode == Some("UNKNOWN") && r.errorMessage == Some(outcome.message)
    ensures !outcome.Responded? ==> r.ttfbMs == None && r.headers == map[]
  {
    match outcome
    case Responded(status, reason, ttfb, headers) =>
      var ok := IsSuccessStatusCode(status);
      HttpProbeResult(ok,
                      if ok then None else Some("HTTP_" + IntToString(status)),
                      if ok then None else Some("HTTP " + IntToString(status) + " " + reason),
                      elapsedMs, Some(status), Some(ttfb), HeaderMap(headers))
    case TimedOut => Failure("TIMEOUT", "Request timed out", elapsedMs)
    case RequestFailed(message) => Failure("HTTP_ERROR", message, elapsedMs)
    case OtherFailure(message) => Failure("UNKNOWN", message, elapsedMs)
  }

  /** `CheckUrlAsync(url)`: normalize, send, then fill the result; the header loop
      copies each header into the dictionary. */
  method CheckUrl(url: string, send: string -> HttpOutcome, elapsedMs: nat) returns (r: HttpProbeResult)
    ensures r == UrlCheck(send(NormalizeUrl(url)), elapsedMs)
  {
    r := HttpProbeResult(false, None, None, 0, None, None, map[]);
    var normalizedUrl := NormalizeUrl(url);
    var outcome := send(normalizedUrl);
    match outcome {
      case Responded(status, reason, ttfb, headers) =>
        r := r.(statusCode := Some(status), ttfbMs := Some(ttfb));
        for i := 0 to |headers|
          invariant r.headers == HeaderMap(headers[..i])
          invariant r.statusCode == Some(status) && r.ttfbMs == Some(ttfb)
          invariant !r.success && r.errorCode == None && r.errorMessage == None && r.durationMs == 0
        {
          assert headers[..i + 1][..i] == headers[..i];
          r := r.(headers := r.headers[headers[i].0 := Join(", ", headers[i].1)]);
        }
        assert headers[..|headers|] == headers;
        r := r.(success := IsSuccessStatusCode(status));
        if !r.success {
          r := r.(errorCode := Some("HTTP_" + IntToString(status)),
                  errorMessage := Some("HTTP " + IntToString(status) + " " + reason));
        }
      case TimedOut =>
        r := r.(success := false, errorCode := Some("TIMEOUT"), errorMessage := Some("Request timed out"));
      case RequestFailed(message) =>
        r := r.(success := false, errorCode := Some("HTTP_ERROR"), errorMessage := Some(message));
      case OtherFailure(message) =>
        r := r.(success := false, errorCode := Some("UNKNOWN"), errorMessage := Some(message));
    }
    r := r.(durationMs := elapsedMs);
  }

  /** A successful probe never carries an error code, and a failed one always does. */
  lemma ErrorCodeIffFailure(outcome: HttpOutcome, elapsedMs: nat)
    ensures UrlCheck(outcome, elapsedMs).errorCode.None? <==> UrlCheck(outcome, elapsedMs).success
  {
  }

  /** Any status outside 2xx that reaches the runner, including a redirect the
      client did not follow, is a failure named by its status. */
  lemma NonSuccessStatusFails(status: int, reason: string, ttfb: nat, headers: seq<(string, seq<string>)>, elapsedMs: nat)
    requires status < 200 || 300 <= status
    ensures var r := UrlCheck(Responded(status, reason, ttfb, headers), elapsedMs);
      !r.success && r.errorCode == Some("HTTP_" + IntToString(status))
  {
  }
}

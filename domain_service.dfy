/**
 * The domain API service: name normalization, creation with the three
 * default checks, partial update, deletion, and the detail query.
 */
module DomainService {
  import opened Common
  import opened Text
  import opened Queries
  import opened Entities
  import opened Store

  // Name normalization.

  /** No ASCII upper-case letter occurs in `s`. */
  predicate NoUpper(s: string) {
    forall i :: 0 <= i < |s| ==> !IsAsciiUpper(s[i])
  }

  /** `s.Substring(|p|)` when `s` starts with `p`, else `s`. */
  function StripPrefix(s: string, p: string): (r: string)
    ensures StartsWith(s, p) ==> r == s[|p|..]
    ensures !StartsWith(s, p) ==> r == s
  {
    if StartsWith(s, p) then s[|p|..] else s
  }

  /** The input after trimming, lower-casing and removing the scheme and one
      `www.`: the string whose first segment becomes the domain name. */
  function HostPart(input: string): string {
    StripPrefix(StripPrefix(StripPrefix(ToLower(Trim(input)), "http://"), "https://"), "www.")
  }

  /** Stripping a prefix keeps a string free of upper-case letters. */
  lemma StripPrefixNoUpper(s: string, p: string)
    requires NoUpper(s)
    ensures NoUpper(StripPrefix(s, p))
  {
    if StartsWith(s, p) {
      var r := s[|p|..];
      assert forall i :: 0 <= i < |r| ==> r[i] == s[i + |p|];
    }
  }

  /** The host part has no upper-case letter. */
  lemma HostPartNoUpper(input: string)
    ensures NoUpper(HostPart(input))
  {
    var l := ToLower(Trim(input));
    var a := StripPrefix(l, "http://");
    var b := StripPrefix(a, "https://");
    StripPrefixNoUpper(l, "http://");
    StripPrefixNoUpper(a, "https://");
    StripPrefixNoUpper(b, "www.");
  }

  /** `DomainService.NormalizeDomainName`: trim, lower-case, strip `http://`
      then `https://`, strip one `www.`, cut at the first `/`, then at the first `:`. */
  function NormalizeDomainName(input: string): (r: string)
    ensures '/' !in r && ':' !in r
    ensures NoUpper(r)
    ensures |r| <= |HostPart(input)| && r == HostPart(input)[..|r|]
  {
    var host := HostPart(input);
    var beforePath := CutAt(host, '/');
    var name := CutAt(beforePath, ':');
    PrefixOfPrefix(host, beforePath, name, '/');
    HostPartNoUpper(input);
    assert forall i :: 0 <= i < |name| ==> name[i] == host[i];
    name
  }

  /** The normalizer cuts the host part at the first '/' and then at the first ':'. */
  lemma NormalizeIsCut(input: string)
    ensures NormalizeDomainName(input) == CutAt(CutAt(HostPart(input), '/'), ':')
  {
  }

  /** A string whose first character differs from that of `p` does not start with `p`. */
  lemma FirstCharDiffers(s: string, p: string)
    requires |s| > 0 && |p| > 0 && s[0] != p[0]
    ensures !StartsWith(s, p)
  {
    if |p| <= |s| { assert s[..|p|][0] != p[0]; }
  }

  /** A string with neither end white space and no upper-case letter is its own trimmed, lower-cased form. */
  lemma PlainText(s: string)
    requires IsTrimmed(s) && NoUpper(s)
    ensures ToLower(Trim(s)) == s
  {
    TrimOfTrimmed(s);
  }

  /** The two cuts together cut at the first `/` or `:`: the name is the
      longest prefix of the host part holding neither. */
  lemma CutsAtFirstSeparator(input: string)
    ensures var h := HostPart(input);
      var r := NormalizeDomainName(input);
      (forall i :: 0 <= i < |r| ==> h[i] != '/' && h[i] != ':')
      && (|r| == |h| || h[|r|] == '/' || h[|r|] == ':')
  {
    var h := HostPart(input);
    var c := CutAt(h, '/');
    var r := CutAt(c, ':');
    assert r == NormalizeDomainName(input);
    PrefixOfPrefix(h, c, r, '/');
    forall i | 0 <= i < |r| ensures h[i] != '/' && h[i] != ':' {
      assert r[i] in r;
    }
    if r != c {
      assert c[|r|] == h[|r|];
    }
  }

  /** A full URL `HTTPS://WWW.<host>:<port>/<path>` normalizes to the lower-cased host. */
  lemma NormalizeFullUrl(host: string, port: string, path: string)
    requires '/' !in host && ':' !in host && '/' !in port
    requires |path| > 0 && !IsWhiteSpace(path[|path| - 1])
    ensures NormalizeDomainName("HTTPS://WWW." + host + ":" + port + "/" + path) == ToLower(host)
  {
    HostPartOfFullUrl(host, port, path);
    LowerKeepsAbsent(host, '/');
    LowerKeepsAbsent(host, ':');
    LowerKeepsAbsent(port, '/');
    CutHostPort(ToLower(host), ToLower(port), ToLower(path));
  }

  lemma HostPartOfFullUrl(host: string, port: string, path: string)
    requires |path| > 0 && !IsWhiteSpace(path[|path| - 1])
    ensures HostPart("HTTPS://WWW." + host + ":" + port + "/" + path)
      == ToLower(host) + ":" + ToLower(port) + "/" + ToLower(path)
  {
    var rest := ToLower(host) + ":" + ToLower(port) + "/" + ToLower(path);
    FullUrlTrimmed(host, port, path);
    LowerUrl(host, port, path);
    HostPartOfLowered("HTTPS://WWW." + host + ":" + port + "/" + path, rest);
  }

  /** The full URL has no white space at either end. */
  lemma FullUrlTrimmed(host: string, port: string, path: string)
    requires |path| > 0 && !IsWhiteSpace(path[|path| - 1])
    ensures Trim("HTTPS://WWW." + host + ":" + port + "/" + path) == "HTTPS://WWW." + host + ":" + port + "/" + path
  {
    var s := "HTTPS://WWW." + host + ":" + port + "/" + path;
    assert s[0] == 'H' && s[|s| - 1] == path[|path| - 1];
    TrimOfTrimmed(s);
  }

  /** An input that trims and lower-cases to `https://www.<rest>` has host part `rest`. */
  lemma HostPartOfLowered(s: string, rest: string)
    requires ToLower(Trim(s)) == "https://www." + rest
    ensures HostPart(s) == rest
  {
    SchemeAndWwwStripped(rest);
  }

  /** From `https://www.<rest>` the scheme and the `www.` are stripped. */
  lemma SchemeAndWwwStripped(rest: string)
    ensures StripPrefix(StripPrefix(StripPrefix("https://www." + rest, "http://"), "https://"), "www.") == rest
  {
    var l := "https://www." + rest;
    assert !StartsWith(l, "http://") by { assert l[4] == 's'; }
    assert StartsWith(l, "https://") by { assert l[..8] == "https://"; }
    var a := l[8..];
    assert a == "www." + rest;
    assert StartsWith(a, "www.") by { assert a[..4] == "www."; }
    assert a[4..] == rest;
  }

  /** Lower-casing the URL lower-cases each of its parts. */
  lemma LowerUrl(host: string, port: string, path: string)
    ensures ToLower("HTTPS://WWW." + host + ":" + port + "/" + path)
      == "https://www." + (ToLower(host) + ":" + ToLower(port) + "/" + ToLower(path))
  {
    LowerPrefix("HTTPS://WWW.");
    LowerParts("HTTPS://WWW.", "https://www.", host, port, path);
  }

  /** Lower-casing `<u><host>:<port>/<path>` lower-cases each part. */
  lemma LowerParts(u: string, lu: string, host: string, port: string, path: string)
    requires ToLower(u) == lu
    ensures ToLower(u + host + ":" + port + "/" + path)
      == lu + (ToLower(host) + ":" + ToLower(port) + "/" + ToLower(path))
  {
    ToLowerAppend(u + host + ":" + port + "/", path);
    ToLowerAppend(u + host + ":" + port, "/");
    ToLowerAppend(u + host + ":", port);
    ToLowerAppend(u + host, ":");
    ToLowerAppend(u, host);
    assert ToLower(":") == ":";
    assert ToLower("/") == "/";
    var h, p, q := ToLower(host), ToLower(port), ToLower(path);
    assert lu + h + ":" + p + "/" + q == lu + (h + ":" + p + "/" + q);
  }

  lemma LowerPrefix(u: string)
    requires u == "HTTPS://WWW."
    ensures ToLower(u) == "https://www."
  {
  }

  /** Lower-casing does not introduce a character that is not a letter. */
  lemma LowerKeepsAbsent(s: string, c: char)
    requires c !in s && !('a' <= c <= 'z')
    ensures c !in ToLower(s)
  {
    var l := ToLower(s);
    forall i | 0 <= i < |l| ensures l[i] != c {
      assert s[i] in s;
    }
  }

  /** Cutting `host:port/path` at `/` and then at `:` leaves `host`. */
  lemma CutHostPort(h: string, p: string, q: string)
    requires '/' !in h && ':' !in h && '/' !in p
    ensures CutAt(CutAt(h + ":" + p + "/" + q, '/'), ':') == h
  {
    var hp := h + ":" + p;
    assert '/' !in hp by {
      assert forall i :: 0 <= i < |hp| ==> hp[i] == if i < |h| then h[i] else if i == |h| then ':' else p[i - |h| - 1];
    }
    assert h + ":" + p + "/" + q == hp + ['/'] + q;
    CutBefore(hp, '/', q);
    assert hp == h + [':'] + p;
    CutBefore(h, ':', p);
  }

  /** The example from the service's comments: scheme, `www.`, port and path all go. */
  lemma NormalizeExample()
    ensures NormalizeDomainName("HTTPS://WWW.Example.com:443/path") == "example.com"
  {
    assert "HTTPS://WWW.Example.com:443/path" == "HTTPS://WWW." + "Example.com" + ":" + "443" + "/" + "path";
    NormalizeFullUrl("Example.com", "443", "path");
    LowerExampleHost("Example.com");
  }

  lemma LowerExampleHost(h: string)
    requires h == "Example.com"
    ensures ToLower(h) == "example.com"
  {
  }

  /** Cutting `a + [c] + b` at `c`, where `a` holds no `c`, gives `a`. */
  lemma CutBefore(a: string, c: char, b: string)
    requires c !in a
    ensures CutAt(a + [c] + b, c) == a
  {
    IndexOfAfter(a, c, b);
    assert (a + [c] + b)[..|a|] == a;
  }

  /** Cutting at a character that does not occur changes nothing. */
  lemma CutAbsent(a: string, c: char)
    requires c !in a
    ensures CutAt(a, c) == a
  {
  }

  /** Only one `www.` is stripped, so normalizing twice can change the
      result: `www.www.a` becomes `www.a`, which becomes `a`. */
  lemma NotIdempotent(rest: string)
    requires IsTrimmed(rest) && NoUpper(rest) && '/' !in rest && ':' !in rest
    ensures NormalizeDomainName("www.www." + rest) == "www." + rest
    ensures NormalizeDomainName(NormalizeDomainName("www.www." + rest)) == rest
    ensures NormalizeDomainName(NormalizeDomainName("www.www." + rest)) != NormalizeDomainName("www.www." + rest)
  {
    var once := "www." + rest;
    assert "www.www." + rest == "www." + once;
    assert '/' !in once && ':' !in once by {
      assert forall i :: 4 <= i < |once| ==> once[i] == rest[i - 4];
    }
    WwwPlain(once);
    StripsOneWww(once);
    WwwPlain(rest);
    StripsOneWww(rest);
  }

  /** `www.` followed by a trimmed lower-case rest is trimmed and lower-case. */
  lemma WwwPlain(rest: string)
    requires IsTrimmed(rest) && NoUpper(rest)
    ensures IsTrimmed("www." + rest) && NoUpper("www." + rest)
  {
    var s := "www." + rest;
    assert s[0] == 'w';
    assert forall i :: 4 <= i < |s| ==> s[i] == rest[i - 4];
    assert forall i :: 0 <= i < 4 ==> s[i] == "www."[i];
  }

  /** A plain name made of `www.` and a rest with no `/` or `:` normalizes to that rest. */
  lemma StripsOneWww(rest: string)
    requires '/' !in rest && ':' !in rest
    requires IsTrimmed("www." + rest) && NoUpper("www." + rest)
    ensures NormalizeDomainName("www." + rest) == rest
  {
    var s := "www." + rest;
    PlainHostPart(s);
    assert StartsWith(s, "www.") by { assert s[..4] == "www."; }
    assert s[4..] == rest;
    CutAbsent(rest, '/');
    CutAbsent(rest, ':');
  }

  /** For a plain input (trimmed, lower-case, starting with `w`) the host part just drops one `www.`. */
  lemma PlainHostPart(s: string)
    requires |s| > 0 && s[0] == 'w' && IsTrimmed(s) && NoUpper(s)
    ensures HostPart(s) == StripPrefix(s, "www.")
  {
    PlainText(s);
    FirstCharDiffers(s, "http://");
    FirstCharDiffers(s, "https://");
  }

  /** The scheme is looked for before `www.`, so a scheme after `www.` is not
      removed; the cut at `/` and `:` then keeps only the scheme name. */
  lemma SchemeStrippedBeforeWww(rest: string)
    requires IsTrimmed("www.http://" + rest) && NoUpper("www.http://" + rest)
    ensures NormalizeDomainName("www.http://" + rest) == "http"
  {
    var s := "www.http://" + rest;
    var h := "http://" + rest;
    assert s == "www." + h;
    PlainHostPart(s);
    assert StartsWith(s, "www.") by { assert s[..4] == "www."; }
    assert s[4..] == h;
    assert HostPart(s) == h;
    CutsToScheme(rest);
  }

  /** Cutting `http://…` at `/` and then at `:` leaves `http`. */
  lemma CutsToScheme(rest: string)
    ensures CutAt(CutAt("http://" + rest, '/'), ':') == "http"
  {
    assert "http://" + rest == "http:" + ['/'] + ("/" + rest);
    CutBefore("http:", '/', "/" + rest);
    assert "http:" == "http" + [':'] + "";
    CutBefore("http", ':', "");
  }

  /** Trimming happens only once, before the scheme is removed: white space after the scheme stays. */
  lemma InnerSpaceKept(rest: string)
    requires IsTrimmed("http:// " + rest) && NoUpper("http:// " + rest)
    requires '/' !in rest && ':' !in rest
    ensures NormalizeDomainName("http:// " + rest) == " " + rest
  {
    var s := "http:// " + rest;
    PlainText(s);
    assert StartsWith(s, "http://") by { assert s[..7] == "http://"; }
    var h := s[7..];
    assert h == " " + rest;
    FirstCharDiffers(h, "https://");
    FirstCharDiffers(h, "www.");
    assert HostPart(s) == h;
    assert '/' !in h && ':' !in h by {
      assert forall i :: 1 <= i < |h| ==> h[i] == rest[i - 1];
    }
    CutAbsent(h, '/');
    CutAbsent(h, ':');
  }

  lemma ToLowerOfLower(s: string)
    requires NoUpper(s)
    ensures ToLower(s) == s
  {
  }

  /** A string without `:` starts with neither scheme prefix. */
  lemma NoSchemeWithoutColon(s: string)
    requires ':' !in s
    ensures !StartsWith(s, "http://") && !StartsWith(s, "https://")
  {
    if |s| > 5 {
      assert s[4] in s && s[5] in s;
    }
  }

  /** A name that is trimmed, lower-case, free of `/` and `:` and does not
      start with `www.` normalizes to itself. */
  lemma NormalizeClean(r: string)
    requires IsTrimmed(r) && NoUpper(r) && '/' !in r && ':' !in r && !StartsWith(r, "www.")
    ensures NormalizeDomainName(r) == r
  {
    TrimOfTrimmed(r);
    ToLowerOfLower(r);
    NoSchemeWithoutColon(r);
    assert HostPart(r) == r;
    CutAbsent(r, '/');
    CutAbsent(r, ':');
  }

  /** A normalized name that is already trimmed and does not start with `www.`
      is a fixed point of the normalizer. */
  lemma NormalizeFixedPoint(input: string)
    requires var r := NormalizeDomainName(input); IsTrimmed(r) && !StartsWith(r, "www.")
    ensures NormalizeDomainName(NormalizeDomainName(input)) == NormalizeDomainName(input)
  {
    NormalizeClean(NormalizeDomainName(input));
  }

  // Creation, update and deletion.

  datatype CreateDomainRequest = CreateDomainRequest(name: string, enabled: bool, intervalMinutes: int)

  /** A null field leaves the stored value as it is. */
  datatype UpdateDomainRequest = UpdateDomainRequest(enabled: Option<bool>, intervalMinutes: Option<int>)

  datatype DomainDto = DomainDto(
    id: Id, name: string, enabled: bool, intervalMinutes: int, createdAt: Instant, updatedAt: Instant)

  function DtoOf(d: Domain): DomainDto {
    DomainDto(d.id, d.name, d.enabled, d.intervalMinutes, d.createdAt, d.updatedAt)
  }

  /** The row `CreateDomainAsync` inserts; icon and group keep their defaults. */
  function NewDomain(request: CreateDomainRequest, id: Id, now: Instant): Domain {
    DomainRow(NormalizeDomainName(request.name), request, id, now)
  }

  function DomainRow(name: string, request: CreateDomainRequest, id: Id, now: Instant): Domain {
    Domain(id, name, request.enabled, request.intervalMinutes, None, None, now, now)
  }

  /** The three default checks of a new domain, each with its own fresh id. */
  function DefaultChecks(domainId: Id, dnsId: Id, tlsId: Id, httpId: Id, now: Instant): seq<Check> {
    [Check(dnsId, domainId, DNS, true, now, now),
     Check(tlsId, domainId, TLS, true, now, now),
     Check(httpId, domainId, HTTP, true, now, now)]
  }

  /** No two rows share an id. */
  predicate UniqueDomainIds(ds: seq<Domain>) {
    forall i, j :: 0 <= i < |ds| && 0 <= j < |ds| && ds[i].id == ds[j].id ==> i == j
  }

  predicate HasDomain(ds: seq<Domain>, id: Id) {
    exists i :: 0 <= i < |ds| && ds[i].id == id
  }

  /** `FindAsync(id)`: the position of the row with that key, if any. */
  function FindDomain(ds: seq<Domain>, id: Id): (r: Option<nat>)
    ensures r.None? <==> !HasDomain(ds, id)
    ensures r.Some? ==> r.value < |ds| && ds[r.value].id == id
    ensures r.Some? ==> forall k :: 0 <= k < r.value ==> ds[k].id != id
  {
    if |ds| == 0 then None
    else if ds[0].id == id then Some(0)
    else
      var rest := FindDomain(ds[1..], id);
      if rest.None? then
        assert forall i :: 1 <= i < |ds| ==> ds[i] == ds[1..][i - 1];
        None
      else Some(rest.value + 1)
  }

  /** The stored name of a created domain is the normalized request name, so
      it holds no `/`, `:` or upper-case letter. */
  lemma CreatedDomainName(request: CreateDomainRequest, id: Id, now: Instant)
    ensures var d := NewDomain(request, id, now);
      && d.id == id && d.name == NormalizeDomainName(request.name)
      && '/' !in d.name && ':' !in d.name && NoUpper(d.name)
      && d.enabled == request.enabled && d.intervalMinutes == request.intervalMinutes
  {
  }

  /** The default checks are DNS, TLS and HTTP, enabled and owned by the new domain. */
  lemma DefaultChecksShape(id: Id, dnsId: Id, tlsId: Id, httpId: Id, now: Instant)
    ensures var cs := DefaultChecks(id, dnsId, tlsId, httpId, now);
      && |cs| == 3
      && (forall c :: c in cs ==> c.domainId == id && c.enabled && IsKnownCheckType(c.checkType))
      && (forall t :: IsKnownCheckType(t) ==> exists c :: c in cs && c.checkType == t)
  {
    var cs := DefaultChecks(id, dnsId, tlsId, httpId, now);
    assert cs[0] in cs && cs[1] in cs && cs[2] in cs;
  }

  /** A new domain whose id no earlier check uses has exactly the three
      default checks as its enabled checks. */
  lemma {:induction false} CreatedChecksAreEnabledChecks(old_checks: seq<Check>, id: Id, dnsId: Id, tlsId: Id, httpId: Id, now: Instant)
    requires forall c :: c in old_checks ==> c.domainId != id
    ensures EnabledChecksOf(old_checks + DefaultChecks(id, dnsId, tlsId, httpId, now), id)
      == DefaultChecks(id, dnsId, tlsId, httpId, now)
  {
    var cs := DefaultChecks(id, dnsId, tlsId, httpId, now);
    if |old_checks| == 0 {
      assert old_checks + cs == cs;
      assert cs[1..] == [cs[1], cs[2]];
      assert cs[1..][1..] == [cs[2]];
      assert cs[1..][1..][1..] == [];
    } else {
      assert (old_checks + cs)[1..] == old_checks[1..] + cs;
      assert old_checks[0] in old_checks;
      CreatedChecksAreEnabledChecks(old_checks[1..], id, dnsId, tlsId, httpId, now);
    }
  }

  /** `CreateDomainAsync`: insert the normalized domain, then its three default checks. */
  method CreateDomain(db: Database, request: CreateDomainRequest, id: Id, dnsId: Id, tlsId: Id, httpId: Id, now: Instant)
    returns (dto: DomainDto)
    modifies db
    ensures db.domains == old(db.domains) + [NewDomain(request, id, now)]
    ensures db.checks == old(db.checks) + DefaultChecks(id, dnsId, tlsId, httpId, now)
    ensures db.probeRuns == old(db.probeRuns) && db.incidents == old(db.incidents)
    ensures db.groups == old(db.groups) && db.notifications == old(db.notifications) && db.attempts == old(db.attempts)
    ensures dto == DtoOf(NewDomain(request, id, now))
  {
    var name := NormalizeDomainName(request.name);
    var domain := AddDomain(db, name, request, id, now);
    AddDefaultChecks(db, id, dnsId, tlsId, httpId, now);
    dto := DtoOf(domain);
  }

  /** The first save of `CreateDomainAsync`: the domain row. */
  method AddDomain(db: Database, name: string, request: CreateDomainRequest, id: Id, now: Instant) returns (domain: Domain)
    modifies db
    ensures domain == DomainRow(name, request, id, now)
    ensures db.domains == old(db.domains) + [domain]
    ensures db.checks == old(db.checks) && db.probeRuns == old(db.probeRuns) && db.incidents == old(db.incidents)
    ensures db.groups == old(db.groups) && db.notifications == old(db.notifications) && db.attempts == old(db.attempts)
  {
    domain := DomainRow(name, request, id, now);
    db.domains := db.domains + [domain];
  }

  /** The second save of `CreateDomainAsync`: the three checks. */
  method AddDefaultChecks(db: Database, domainId: Id, dnsId: Id, tlsId: Id, httpId: Id, now: Instant)
    modifies db
    ensures db.checks == old(db.checks) + DefaultChecks(domainId, dnsId, tlsId, httpId, now)
    ensures db.domains == old(db.domains) && db.probeRuns == old(db.probeRuns) && db.incidents == old(db.incidents)
    ensures db.groups == old(db.groups) && db.notifications == old(db.notifications) && db.attempts == old(db.attempts)
  {
    db.checks := db.checks + DefaultChecks(domainId, dnsId, tlsId, httpId, now);
  }

  /** A fresh id keeps the domain ids unique. */
  lemma CreatePreservesUniqueIds(ds: seq<Domain>, d: Domain)
    requires UniqueDomainIds(ds) && !HasDomain(ds, d.id)
    ensures UniqueDomainIds(ds + [d])
  {
    var r := ds + [d];
    assert forall k :: 0 <= k < |ds| ==> ds[k].id != d.id;
    assert forall k :: 0 <= k < |r| ==> r[k] == if k < |ds| then ds[k] else d;
  }

  /** The fields an update writes: `Enabled` and `IntervalMinutes` when
      supplied, and always `UpdatedAt`. */
  function ApplyUpdate(d: Domain, request: UpdateDomainRequest, now: Instant): (r: Domain)
    ensures r.id == d.id && r.name == d.name && r.icon == d.icon && r.groupId == d.groupId
    ensures r.createdAt == d.createdAt && r.updatedAt == now
    ensures r.enabled == (if request.enabled.Some? then request.enabled.value else d.enabled)
    ensures r.intervalMinutes == (if request.intervalMinutes.Some? then request.intervalMinutes.value else d.intervalMinutes)
  {
    var d1 := if request.enabled.Some? then d.(enabled := request.enabled.value) else d;
    var d2 := if request.intervalMinutes.Some? then d1.(intervalMinutes := request.intervalMinutes.value) else d1;
    d2.(updatedAt := now)
  }

  /** Repeating the same update at the same time changes nothing more. */
  lemma ApplyUpdateIdempotent(d: Domain, request: UpdateDomainRequest, now: Instant)
    ensures ApplyUpdate(ApplyUpdate(d, request, now), request, now) == ApplyUpdate(d, request, now)
  {
  }

  /** An update with both fields null only moves `UpdatedAt`. */
  lemma EmptyUpdateTouchesOnlyTimestamp(d: Domain, now: Instant)
    ensures ApplyUpdate(d, UpdateDomainRequest(None, None), now) == d.(updatedAt := now)
  {
  }

  /** `UpdateDomainAsync`: false and no change for an unknown id; otherwise
      the found row gets the supplied fields. */
  method UpdateDomain(db: Database, id: Id, request: UpdateDomainRequest, now: Instant) returns (found: bool)
    modifies db
    ensures found <==> HasDomain(old(db.domains), id)
    ensures !found ==> db.domains == old(db.domains)
    ensures found ==> var i := FindDomain(old(db.domains), id).value;
      db.domains == old(db.domains)[i := ApplyUpdate(old(db.domains)[i], request, now)]
    ensures db.checks == old(db.checks) && db.probeRuns == old(db.probeRuns) && db.incidents == old(db.incidents)
    ensures db.groups == old(db.groups) && db.notifications == old(db.notifications) && db.attempts == old(db.attempts)
  {
    var at := FindDomain(db.domains, id);
    if at.None? {
      return false;
    }
    var i := at.value;
    var domain := db.domains[i];
    if request.enabled.Some? {
      domain := domain.(enabled := request.enabled.value);
    }
    if request.intervalMinutes.Some? {
      domain := domain.(intervalMinutes := request.intervalMinutes.value);
    }
    domain := domain.(updatedAt := now);
    db.domains := db.domains[i := domain];
    return true;
  }

  /** `ds` without its element at `i`. */
  function RemoveAt<T>(ds: seq<T>, i: nat): (r: seq<T>)
    requires i < |ds|
    ensures |r| == |ds| - 1
    ensures forall k :: 0 <= k < i ==> r[k] == ds[k]
    ensures forall k :: i <= k < |r| ==> r[k] == ds[k + 1]
  {
    ds[..i] + ds[i + 1..]
  }

  /** With unique ids, removing the found row leaves no row with that id and
      keeps every other row. */
  lemma RemovedDomainIsGone(ds: seq<Domain>, id: Id)
    requires UniqueDomainIds(ds) && HasDomain(ds, id)
    ensures var r := RemoveAt(ds, FindDomain(ds, id).value);
      && !HasDomain(r, id)
      && (forall d :: d in ds && d.id != id ==> d in r)
      && UniqueDomainIds(r)
  {
    var i := FindDomain(ds, id).value;
    var r := RemoveAt(ds, i);
    forall k | 0 <= k < |r| ensures r[k].id != id {
      if k >= i { assert r[k] == ds[k + 1]; }
    }
    forall d | d in ds && d.id != id ensures d in r {
      var k :| 0 <= k < |ds| && ds[k] == d;
      if k < i { assert r[k] == d; } else { assert k != i; assert r[k - 1] == d; }
    }
    forall a, b | 0 <= a < |r| && 0 <= b < |r| && r[a].id == r[b].id ensures a == b {
      var a' := if a < i then a else a + 1;
      var b' := if b < i then b else b + 1;
      assert ds[a'].id == ds[b'].id;
    }
  }

  /** `DeleteDomainAsync`: false for an unknown id; otherwise the row is removed. */
  method DeleteDomain(db: Database, id: Id) returns (found: bool)
    modifies db
    ensures found <==> HasDomain(old(db.domains), id)
    ensures !found ==> db.domains == old(db.domains)
    ensures found ==> db.domains == RemoveAt(old(db.domains), FindDomain(old(db.domains), id).value)
    ensures db.checks == old(db.checks) && db.probeRuns == old(db.probeRuns) && db.incidents == old(db.incidents)
    ensures db.groups == old(db.groups) && db.notifications == old(db.notifications) && db.attempts == old(db.attempts)
  {
    var at := FindDomain(db.domains, id);
    if at.None? {
      return false;
    }
    db.domains := db.domains[..at.value] + db.domains[at.value + 1..];
    return true;
  }

  // The detail query.

  datatype DomainDetail = DomainDetail(
    domain: Domain, checks: seq<Check>, recentRuns: seq<ProbeRun>, openIncidents: seq<Incident>)

  function RunOfDomain(id: Id): ProbeRun -> bool { (r: ProbeRun) => r.domainId == id }

  function OpenIncidentOf(id: Id): Incident -> bool { (i: Incident) => i.domainId == id && i.status == INCIDENT_OPEN }

  function CheckOfDomain(id: Id): Check -> bool { (c: Check) => c.domainId == id }

  /** Sort keys for the two `OrderByDescending` clauses. */
  function CompletedDesc(r: ProbeRun): int { -r.completedAt }

  function StartedDesc(i: Incident): int { -i.startedAt }

  /** The domain's runs, latest `CompletedAt` first, at most ten. */
  function RecentRuns(runs: seq<ProbeRun>, id: Id): (r: seq<ProbeRun>)
    ensures |r| <= 10
    ensures forall x :: x in r ==> x in runs && x.domainId == id
    ensures forall i, j :: 0 <= i < j < |r| ==> r[i].completedAt >= r[j].completedAt
    ensures |Filter(runs, RunOfDomain(id))| <= 10 ==> multiset(r) == multiset(Filter(runs, RunOfDomain(id)))
    ensures |r| == if |Filter(runs, RunOfDomain(id))| <= 10 then |Filter(runs, RunOfDomain(id))| else 10
    ensures multiset(r) <= multiset(Filter(runs, RunOfDomain(id)))
  {
    var mine := Filter(runs, RunOfDomain(id));
    var r := TopBy(mine, CompletedDesc, 10);
    assert forall i, j :: 0 <= i < j < |r| ==> CompletedDesc(r[i]) <= CompletedDesc(r[j]);
    r
  }

  /** A run of the domain is left out only when ten are listed, and it
      completed no later than any run listed. */
  lemma RecentRunsAreLatest(runs: seq<ProbeRun>, id: Id, x: ProbeRun)
    requires x in runs && x.domainId == id && x !in RecentRuns(runs, id)
    ensures |RecentRuns(runs, id)| == 10
    ensures forall y :: y in RecentRuns(runs, id) ==> y.completedAt >= x.completedAt
  {
    var mine := Filter(runs, RunOfDomain(id));
    assert x in mine;
    TopByLeavesOutLargest(mine, CompletedDesc, 10, x);
    assert RecentRuns(runs, id) == TopBy(mine, CompletedDesc, 10);
  }

  /** The domain's OPEN incidents, latest `StartedAt` first. */
  function OpenIncidents(incidents: seq<Incident>, id: Id): (r: seq<Incident>)
    ensures forall x :: x in r <==> x in incidents && x.domainId == id && x.status == INCIDENT_OPEN
    ensures multiset(r) == multiset(Filter(incidents, OpenIncidentOf(id)))
    ensures forall i, j :: 0 <= i < j < |r| ==> r[i].startedAt >= r[j].startedAt
  {
    var mine := Filter(incidents, OpenIncidentOf(id));
    var r := SortBy(mine, StartedDesc);
    SameElements(r, mine);
    assert forall i, j :: 0 <= i < j < |r| ==> StartedDesc(r[i]) <= StartedDesc(r[j]);
    r
  }

  /** `GetDomainByIdAsync`: null for an unknown id; otherwise the domain with
      all its checks, its ten latest runs and its OPEN incidents. */
  function GetDomainById(domains: seq<Domain>, checks: seq<Check>, runs: seq<ProbeRun>, incidents: seq<Incident>, id: Id)
    : (r: Option<DomainDetail>)
    ensures r.None? <==> !HasDomain(domains, id)
    ensures r.Some? ==> r.value.domain in domains && r.value.domain.id == id
    ensures r.Some? ==> forall c :: c in r.value.checks <==> c in checks && c.domainId == id
    ensures r.Some? ==> r.value.recentRuns == RecentRuns(runs, id)
    ensures r.Some? ==> r.value.openIncidents == OpenIncidents(incidents, id)
  {
    var at := FindDomain(domains, id);
    if at.None? then None
    else Some(DomainDetail(domains[at.value], Filter(checks, CheckOfDomain(id)), RecentRuns(runs, id), OpenIncidents(incidents, id)))
  }
}

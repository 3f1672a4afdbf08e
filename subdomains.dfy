/**
 * The subdomains scanner's `scan`: a short-circuiting chain of skips, the
 * canonical-endpoint fallback, the redirect flags, the wildcard-noise skip
 * and the one output row.
 *
 * `Gate` and `Finish` specify the chain as functions (before and after the
 * network probe); the method `Scan` runs it step by step, as the source does,
 * and is proved to agree with them.
 */
module Subdomains {
  import opened Wrappers
  import opened Labels
  import opened StatusText
  import opened Probe

  datatype Protocol = Http | Https
  {
    function Name(): string
    {
      match this
      case Http => "http"
      case Https => "https"
    }
  }

  /** The host-prefix keys of an inspection's endpoints. */
  datatype Host = Root | Www

  /** One `inspection["endpoints"][protocol][prefix]`; a missing `status` is `None`. */
  datatype EndpointStatus = EndpointStatus(status: Option<int>, redirectTo: Option<string>)

  /** The `inspect` scanner's record for a domain. */
  datatype Inspection = Inspection(
    up: bool,
    canonicalProtocol: Protocol,
    canonicalEndpoint: string,
    httpRoot: EndpointStatus,
    httpWww: EndpointStatus,
    httpsRoot: EndpointStatus,
    httpsWww: EndpointStatus)
  {
    function Endpoint(p: Protocol, h: Host): EndpointStatus
    {
      match (p, h)
      case (Http, Root) => httpRoot
      case (Http, Www) => httpWww
      case (Https, Root) => httpsRoot
      case (Https, Www) => httpsWww
    }
  }

  /** The reference tables: the manual exclusion list and the owner of each base domain. */
  datatype Tables = Tables(excluded: set<string>, owners: map<string, string>)

  /** Library code the scanner calls: `urlparse(url).hostname` and the SHA-256 hex digest of the UTF-8 bytes. */
  datatype Library = Library(hostname: string -> Option<string>, sha256: string -> Option<string>)

  /** An endpoint, with the protocol and prefix the scanner associates with it. */
  datatype Choice = Choice(endpoint: EndpointStatus, protocol: Protocol, prefix: string)

  datatype RedirectFlags = RedirectFlags(external: bool, subdomain: bool)

  /** One output row, in the order of `Headers`. */
  datatype Row = Row(
    baseMetadata: Option<string>,
    redirectedExternal: bool,
    redirectedSubdomain: bool,
    statusCode: Option<int>,
    matchedWild: bool,
    hashed: Option<string>)

  datatype Cell = Text(text: Option<string>) | Flag(flag: bool) | Code(code: Option<int>)

  const Headers: seq<string> := [
    "Base Domain Info",
    "Redirects Externally",
    "Redirects To Subdomain",
    "HTTP Status Code",
    "Matched Wildcard DNS",
    "Content SHA-256"
  ]

  /** The row as the CSV writer sees it: one cell per header. */
  function Cells(row: Row): (cells: seq<Cell>)
    ensures |cells| == |Headers|
    ensures cells[0] == Text(row.baseMetadata) && cells[1] == Flag(row.redirectedExternal)
    ensures cells[2] == Flag(row.redirectedSubdomain) && cells[3] == Code(row.statusCode)
    ensures cells[4] == Flag(row.matchedWild) && cells[5] == Text(row.hashed)
  {
    [Text(row.baseMetadata), Flag(row.redirectedExternal), Flag(row.redirectedSubdomain),
     Code(row.statusCode), Flag(row.matchedWild), Text(row.hashed)]
  }

  datatype SkipReason = Excluded | SecondLevel | NotInspected | NotUp | AllDown | WildcardNoise

  /** Exceptions `scan` raises: `re.sub` on a `None` hostname, `"%i" % None` in the wildcard-noise log line. */
  datatype Fault = RedirectWithoutHost | StatusNotFormattable

  datatype ScanOutcome = Skipped(reason: SkipReason) | Emitted(row: Row) | Raised(fault: Fault)
  {
    /** What the generator yields. */
    function Rows(): (rows: seq<Row>)
      ensures |rows| <= 1
      ensures |rows| == 1 <==> Emitted?
    {
      if Emitted? then [row] else []
    }
  }

  /** The fixed fallback order, headed by the inspector's canonical choice. */
  function FallbackOrder(insp: Inspection): (cs: seq<Choice>)
    ensures |cs| == 5
  {
    [Choice(insp.Endpoint(insp.canonicalProtocol, Root), insp.canonicalProtocol, insp.canonicalEndpoint),
     Choice(insp.httpWww, Http, "www"),
     Choice(insp.httpsRoot, Https, "root"),
     Choice(insp.httpsWww, Https, "www"),
     Choice(insp.httpRoot, Http, "root")]
  }

  /** Only an explicit status 0 counts as down; a missing status does not. */
  predicate IsDown(c: Choice)
  {
    c.endpoint.status == Some(0)
  }

  /** The position of the first entry that is not down, or the last entry when all are. */
  function FirstLive(cs: seq<Choice>): (k: nat)
    requires |cs| > 0
    ensures k < |cs|
    ensures forall j :: 0 <= j < k ==> IsDown(cs[j])
    ensures k < |cs| - 1 ==> !IsDown(cs[k])
  {
    if |cs| == 1 || !IsDown(cs[0]) then 0 else 1 + FirstLive(cs[1..])
  }

  /** The endpoint the scanner settles on. */
  function Resolve(insp: Inspection): Choice
  {
    var cs := FallbackOrder(insp);
    cs[FirstLive(cs)]
  }

  /**
   * Lines 100-123: the canonical protocol's `root` endpoint (with the
   * canonical prefix), replaced step by step while the current one has
   * status 0.
   */
  method ResolveEndpoint(insp: Inspection) returns (c: Choice)
    ensures c == Resolve(insp)
  {
    var endpoint := insp.Endpoint(insp.canonicalProtocol, Root);
    var protocol := insp.canonicalProtocol;
    var prefix := insp.canonicalEndpoint;
    if endpoint.status == Some(0) {
      endpoint, protocol, prefix := insp.Endpoint(Http, Www), Http, "www";
    }
    if endpoint.status == Some(0) {
      endpoint, protocol, prefix := insp.Endpoint(Https, Root), Https, "root";
    }
    if endpoint.status == Some(0) {
      endpoint, protocol, prefix := insp.Endpoint(Https, Www), Https, "www";
    }
    if endpoint.status == Some(0) {
      endpoint, protocol, prefix := insp.Endpoint(Http, Root), Http, "root";
    }
    c := Choice(endpoint, protocol, prefix);
    ResolveIsFirstLive(insp, c);
  }

  /** The step-by-step choice agrees with the first live entry of the fallback order. */
  lemma ResolveIsFirstLive(insp: Inspection, c: Choice)
    requires var cs := FallbackOrder(insp);
             c == if !IsDown(cs[0]) then cs[0] else if !IsDown(cs[1]) then cs[1]
                  else if !IsDown(cs[2]) then cs[2] else if !IsDown(cs[3]) then cs[3] else cs[4]
    ensures c == Resolve(insp)
  {
    var cs := FallbackOrder(insp);
    var k := FirstLive(cs);
    if k > 0 { assert IsDown(cs[0]); }
    if k > 1 { assert IsDown(cs[1]); }
    if k > 2 { assert IsDown(cs[2]); }
    if k > 3 { assert IsDown(cs[3]); }
  }

  /** `"%s://%s%s" % (protocol, real_prefix, sub_original)`. */
  function EndpointUrl(c: Choice, sub: string): string
  {
    c.protocol.Name() + "://" + (if c.prefix == "root" then "" else "www.") + sub
  }

  /** The URL names the chosen protocol, and the host is the subdomain, with `www.` unless the prefix is `root`. */
  lemma EndpointUrlParts(c: Choice, sub: string)
    ensures var url := EndpointUrl(c, sub);
            var n := |c.protocol.Name()| + 3;
            && url[..n] == c.protocol.Name() + "://"
            && url[n..] == (if c.prefix == "root" then sub else "www." + sub)
  {
  }

  /**
   * Lines 145-158: with a truthy redirect target, its hostname with `^www.`
   * stripped is compared with the original name (which is not stripped);
   * `None` when that hostname is `None` and `re.sub` raises.
   */
  function ClassifyRedirect(sub: string, redirectTo: Option<string>, hostname: string -> Option<string>): (r: Option<RedirectFlags>)
    ensures !Truthy(redirectTo) ==> r == Some(RedirectFlags(false, false))
    ensures Truthy(redirectTo) ==> (r.None? <==> hostname(redirectTo.value).None?)
    ensures r.Some? ==> !(r.value.external && r.value.subdomain)
  {
    if !Truthy(redirectTo) then Some(RedirectFlags(false, false))
    else match hostname(redirectTo.value)
      case None => None
      case Some(host) =>
        var subRedirect := StripWww(host);
        var baseRedirect := BaseDomainFor(subRedirect);
        var baseOriginal := BaseDomainFor(sub);
        Some(RedirectFlags(baseOriginal != baseRedirect, baseOriginal == baseRedirect && sub != subRedirect))
  }

  /**
   * A redirect whose host, after `^www.` is stripped, is the name itself
   * (not stripped) is neither external nor to a sibling.
   */
  lemma RedirectToSelfIsNeither(sub: string, url: string, hostname: string -> Option<string>)
    requires url != "" && hostname(url).Some? && StripWww(hostname(url).value) == sub
    ensures ClassifyRedirect(sub, Some(url), hostname) == Some(RedirectFlags(false, false))
  {
  }

  /** A redirect within the base domain to a different name is a sibling redirect, never an external one. */
  lemma RedirectWithinBase(sub: string, url: string, hostname: string -> Option<string>)
    requires url != "" && hostname(url).Some?
    requires BaseDomainFor(StripWww(hostname(url).value)) == BaseDomainFor(sub)
    ensures ClassifyRedirect(sub, Some(url), hostname).value.subdomain <==> StripWww(hostname(url).value) != sub
    ensures !ClassifyRedirect(sub, Some(url), hostname).value.external
  {
  }

  /** A redirect whose stripped host has another base domain is external and not a sibling redirect. */
  lemma RedirectOutsideBase(sub: string, url: string, hostname: string -> Option<string>)
    requires url != "" && hostname(url).Some?
    requires BaseDomainFor(StripWww(hostname(url).value)) != BaseDomainFor(sub)
    ensures ClassifyRedirect(sub, Some(url), hostname) == Some(RedirectFlags(true, false))
  {
  }

  /**
   * From `a.mid.tld`, a redirect to `www` followed by any character but a
   * newline and then `mid.tld` is a sibling redirect: the target strips to
   * the base domain `mid.tld`, which is not the name.
   */
  lemma RedirectToWwwAnyOfBase(a: string, c: char, mid: string, tld: string, url: string, hostname: string -> Option<string>)
    requires '.' !in a && '.' !in mid && '.' !in tld && c != '\n'
    requires url != "" && hostname(url) == Some("www" + [c] + mid + "." + tld)
    ensures ClassifyRedirect(a + "." + mid + "." + tld, Some(url), hostname) == Some(RedirectFlags(false, true))
  {
    ThreeLabels(a, mid, tld);
    TwoLabels(mid, tld);
    StripWwwAnyFourthCharacter(c, mid + "." + tld);
    assert "www" + [c] + mid + "." + tld == "www" + [c] + (mid + "." + tld);
    assert |a + "." + mid + "." + tld| > |mid + "." + tld|;
  }

  /** From `a.mid.tld`, a redirect to `www.mid.tld` is a sibling redirect. */
  lemma RedirectToWwwOfBaseAny(a: string, mid: string, tld: string, url: string, hostname: string -> Option<string>)
    requires '.' !in a && '.' !in mid && '.' !in tld
    requires url != "" && hostname(url) == Some("www." + mid + "." + tld)
    ensures ClassifyRedirect(a + "." + mid + "." + tld, Some(url), hostname) == Some(RedirectFlags(false, true))
  {
    assert "www." + mid + "." + tld == "www" + ['.'] + mid + "." + tld;
    RedirectToWwwAnyOfBase(a, '.', mid, tld, url, hostname);
  }

  /**
   * The unescaped dot at work: from `a.mid.tld`, a redirect to the other
   * registrable domain `www-mid.tld` strips to `mid.tld` and counts as a
   * sibling redirect, not an external one.
   */
  lemma RedirectToLookalikeDomain(a: string, mid: string, tld: string, url: string, hostname: string -> Option<string>)
    requires '.' !in a && '.' !in mid && '.' !in tld
    requires url != "" && hostname(url) == Some("www-" + mid + "." + tld)
    ensures ClassifyRedirect(a + "." + mid + "." + tld, Some(url), hostname) == Some(RedirectFlags(false, true))
  {
    assert "www-" + mid + "." + tld == "www" + ['-'] + mid + "." + tld;
    RedirectToWwwAnyOfBase(a, '-', mid, tld, url, hostname);
  }

  /**
   * The unescaped dot again: from any name, a redirect to `www-` followed by
   * that name strips back to the name and sets neither flag.
   */
  lemma RedirectToWwwDashOfSelf(sub: string, url: string, hostname: string -> Option<string>)
    requires url != "" && hostname(url) == Some("www-" + sub)
    ensures ClassifyRedirect(sub, Some(url), hostname) == Some(RedirectFlags(false, false))
  {
    assert "www-" + sub == "www" + ['-'] + sub;
    StripWwwAnyFourthCharacter('-', sub);
    RedirectToSelfIsNeither(sub, url, hostname);
  }

  /**
   * Documented example: from `a.agency.gov`, a redirect to `www.agency.gov`
   * counts as a sibling redirect, since `agency.gov` is a different name
   * from `a.agency.gov` under the same base domain.
   */
  lemma RedirectToWwwOfBase(sub: string, url: string, hostname: string -> Option<string>)
    requires sub == "a.agency.gov"
    requires url != "" && hostname(url) == Some("www.agency.gov")
    ensures ClassifyRedirect(sub, Some(url), hostname) == Some(RedirectFlags(false, true))
  {
    var a, agency, gov := "a", "agency", "gov";
    assert sub == a + "." + agency + "." + gov;
    assert "www.agency.gov" == "www." + agency + "." + gov;
    RedirectToWwwOfBaseAny(a, agency, gov, url, hostname);
  }

  /**
   * Only the redirect host loses its `www.`: `www.x.mid.tld` redirecting to
   * `x.mid.tld` is a sibling redirect, although stripping the original name
   * too would make the two equal.
   */
  lemma WwwNameToBareName(x: string, mid: string, tld: string, url: string, hostname: string -> Option<string>)
    requires '.' !in x && '.' !in mid && '.' !in tld
    requires url != "" && hostname(url) == Some(x + "." + mid + "." + tld)
    requires StripWww(x + "." + mid + "." + tld) == x + "." + mid + "." + tld
    ensures StripWww("www." + x + "." + mid + "." + tld) == x + "." + mid + "." + tld
    ensures ClassifyRedirect("www." + x + "." + mid + "." + tld, Some(url), hostname) == Some(RedirectFlags(false, true))
  {
    var rest := x + "." + mid + "." + tld;
    var sub := "www." + x + "." + mid + "." + tld;
    assert sub == "www" + ['.'] + rest;
    StripWwwAnyFourthCharacter('.', rest);
    ThreeLabels(x, mid, tld);
    SplitFirstPart("www", rest, '.');
    var ls := LabelsOf(sub);
    assert ls == ["www", x, mid, tld];
    assert ls[|ls| - 2..] == [mid, tld];
    JoinTwo(mid, tld, '.');
    assert BaseDomainFor(sub) == mid + "." + tld;
    assert |sub| > |rest|;
  }

  /**
   * A `www.` name redirecting to itself, as an http-to-https upgrade does,
   * counts as a sibling redirect: the target loses its `www.` and the name
   * does not.
   */
  lemma WwwNameRedirectToItself(x: string, mid: string, tld: string, url: string, hostname: string -> Option<string>)
    requires '.' !in x && '.' !in mid && '.' !in tld
    requires url != "" && hostname(url) == Some("www." + x + "." + mid + "." + tld)
    ensures ClassifyRedirect("www." + x + "." + mid + "." + tld, Some(url), hostname) == Some(RedirectFlags(false, true))
  {
    var rest := x + "." + mid + "." + tld;
    var sub := "www." + x + "." + mid + "." + tld;
    assert sub == "www" + ['.'] + rest;
    StripWwwAnyFourthCharacter('.', rest);
    ThreeLabels(x, mid, tld);
    SplitFirstPart("www", rest, '.');
    var ls := LabelsOf(sub);
    assert ls == ["www", x, mid, tld];
    assert ls[|ls| - 2..] == [mid, tld];
    JoinTwo(mid, tld, '.');
    assert BaseDomainFor(sub) == mid + "." + tld;
    assert |sub| > |rest|;
  }

  /**
   * Like `a.agency.gov` to `b.agency.gov`: another name under the same base
   * domain, which `^www.` leaves unchanged, is a sibling redirect.
   */
  lemma RedirectToSibling(a: string, b: string, mid: string, tld: string, url: string, hostname: string -> Option<string>)
    requires '.' !in a && '.' !in b && '.' !in mid && '.' !in tld && a != b
    requires url != "" && hostname(url) == Some(b + "." + mid + "." + tld)
    requires StripWww(b + "." + mid + "." + tld) == b + "." + mid + "." + tld
    ensures ClassifyRedirect(a + "." + mid + "." + tld, Some(url), hostname) == Some(RedirectFlags(false, true))
  {
    ThreeLabels(a, mid, tld);
    ThreeLabels(b, mid, tld);
    assert (a + "." + mid + "." + tld)[..|a|] == a;
    assert (b + "." + mid + "." + tld)[..|b|] == b;
    if |a| == |b| {
      assert a + "." + mid + "." + tld != b + "." + mid + "." + tld;
    } else {
      assert LabelsOf(a + "." + mid + "." + tld)[0] != LabelsOf(b + "." + mid + "." + tld)[0];
    }
  }

  /**
   * Like `a.agency.gov` to `other.com`: a two-label host under a different
   * base domain, which `^www.` leaves unchanged, is an external redirect.
   */
  lemma RedirectToOtherDomain(a: string, mid: string, tld: string, other: string, com: string,
                              url: string, hostname: string -> Option<string>)
    requires '.' !in a && '.' !in mid && '.' !in tld && '.' !in other && '.' !in com
    requires mid + "." + tld != other + "." + com
    requires url != "" && hostname(url) == Some(other + "." + com)
    requires StripWww(other + "." + com) == other + "." + com
    ensures ClassifyRedirect(a + "." + mid + "." + tld, Some(url), hostname) == Some(RedirectFlags(true, false))
  {
    ThreeLabels(a, mid, tld);
    TwoLabels(other, com);
  }

  /** The state of a candidate that survived the checks before the network probe. */
  datatype Resolved = Resolved(choice: Choice, flags: RedirectFlags, url: string, metadata: Option<string>)

  datatype GateResult = Stop(outcome: ScanOutcome) | Go(resolved: Resolved)

  /** Lines 75-164: everything `scan` decides before calling `network_check`. */
  function Gate(domain: string, tables: Tables, inspections: map<string, Inspection>, lib: Library): GateResult
  {
    if domain in tables.excluded then Stop(Skipped(Excluded))
    else if StripWww(domain) == BaseDomainFor(domain) then Stop(Skipped(SecondLevel))
    else if domain !in inspections then Stop(Skipped(NotInspected))
    else if !inspections[domain].up then Stop(Skipped(NotUp))
    else
      var c := Resolve(inspections[domain]);
      if IsDown(c) then Stop(Skipped(AllDown))
      else match ClassifyRedirect(domain, c.endpoint.redirectTo, lib.hostname)
        case None => Stop(Raised(RedirectWithoutHost))
        case Some(flags) =>
          var metadata := if BaseDomainFor(domain) in tables.owners then Some(tables.owners[BaseDomainFor(domain)]) else None;
          Go(Resolved(c, flags, EndpointUrl(c, domain), metadata))
  }

  /** `hashed`: a digest of truthy content, `None` otherwise (and when the digest fails). */
  function ContentHash(content: Option<string>, sha256: string -> Option<string>): (h: Option<string>)
    ensures !Truthy(content) ==> h == None
  {
    if Truthy(content) then sha256(content.value) else None
  }

  /** Lines 166-190: the wildcard-noise skip and the row. */
  function Finish(r: Resolved, probe: ProbeEntry, lib: Library): ScanOutcome
  {
    var status := r.choice.endpoint.status;
    if probe.matchedWild && !StartsWithTwo(status) then
      if status.None? then Raised(StatusNotFormattable) else Skipped(WildcardNoise)
    else
      Emitted(Row(r.metadata, r.flags.external, r.flags.subdomain, status, probe.matchedWild,
                  ContentHash(probe.content, lib.sha256)))
  }

  /**
   * The four cheap checks: an excluded name, a name that is its own base
   * domain once a leading `www` and one more character are stripped, a name
   * never inspected and one that was not up are skipped before any network
   * probe (see `Scan`), whatever the rest of the input.
   */
  lemma CheapChecksSkip(domain: string, tables: Tables, inspections: map<string, Inspection>, lib: Library)
    requires || domain in tables.excluded
             || StripWww(domain) == BaseDomainFor(domain)
             || domain !in inspections
             || !inspections[domain].up
    ensures Gate(domain, tables, inspections, lib).Stop?
    ensures Gate(domain, tables, inspections, lib).outcome.Skipped?
    ensures domain in tables.excluded ==> Gate(domain, tables, inspections, lib).outcome == Skipped(Excluded)
  {
  }

  /** A name of at most two labels that does not start with `www` and one more character is skipped. */
  lemma SecondLevelSkipped(domain: string, tables: Tables, inspections: map<string, Inspection>, lib: Library)
    requires |LabelsOf(domain)| <= 2 && StripWww(domain) == domain
    ensures Gate(domain, tables, inspections, lib).Stop?
    ensures Gate(domain, tables, inspections, lib).outcome.Skipped?
  {
    ShortNameIsOwnBase(domain);
  }

  /** `www.` in front of a two-label name is skipped too. */
  lemma WwwOfSecondLevelSkipped(b: string, c: string, tables: Tables, inspections: map<string, Inspection>, lib: Library)
    requires '.' !in b && '.' !in c
    ensures Gate("www." + b + "." + c, tables, inspections, lib).Stop?
    ensures Gate("www." + b + "." + c, tables, inspections, lib).outcome.Skipped?
  {
    var w := "www";
    assert "www." + b + "." + c == w + "." + b + "." + c;
    ThreeLabels(w, b, c);
    StripWwwAnyFourthCharacter('.', b + "." + c);
    assert "www." + b + "." + c == "www" + ['.'] + (b + "." + c);
  }

  /**
   * Because the dot in `^www.` is unescaped, a second-level name whose
   * first label starts with `www` and one more character (such as
   * `wwwx.gov`) is NOT caught by the second-level check.
   */
  lemma WwwLikeSecondLevelPassesCheck(ch: char, rest: string, tld: string)
    requires ch != '.' && ch != '\n' && '.' !in rest && '.' !in tld
    ensures var domain := "www" + [ch] + rest + "." + tld;
            StripWww(domain) != BaseDomainFor(domain)
  {
    var first := "www" + [ch] + rest;
    var domain := "www" + [ch] + rest + "." + tld;
    assert domain == first + "." + tld;
    TwoLabels(first, tld);
    StripWwwAnyFourthCharacter(ch, rest + "." + tld);
    assert domain == "www" + [ch] + (rest + "." + tld);
    assert |StripWww(domain)| < |domain|;
  }

  /** When every fallback entry is down the choice is `http`/`root` with status 0, and the name is skipped. */
  lemma AllDownSkipped(domain: string, tables: Tables, inspections: map<string, Inspection>, lib: Library)
    requires domain in inspections
    requires forall c :: c in FallbackOrder(inspections[domain]) ==> IsDown(c)
    ensures Resolve(inspections[domain]) == Choice(inspections[domain].httpRoot, Http, "root")
    ensures Gate(domain, tables, inspections, lib).Stop?
    ensures Gate(domain, tables, inspections, lib).outcome.Skipped?
  {
    var cs := FallbackOrder(inspections[domain]);
    assert cs[3] in cs;
    var k := FirstLive(cs);
    assert k == 4;
  }

  /** A missing status is not 0, so the canonical endpoint is kept. */
  lemma MissingStatusKeepsCanonical(insp: Inspection)
    requires insp.Endpoint(insp.canonicalProtocol, Root).status == None
    ensures Resolve(insp) == Choice(insp.Endpoint(insp.canonicalProtocol, Root), insp.canonicalProtocol, insp.canonicalEndpoint)
  {
  }

  /** A live canonical `root` endpoint is kept, with the canonical prefix even when that is `www`. */
  lemma LiveCanonicalKept(insp: Inspection)
    requires !IsDown(FallbackOrder(insp)[0])
    ensures Resolve(insp).endpoint == insp.Endpoint(insp.canonicalProtocol, Root)
    ensures Resolve(insp).prefix == insp.canonicalEndpoint
  {
  }

  /** The documented example: only `https`/`www` answers, so it is chosen. */
  lemma OnlyHttpsWwwLive(insp: Inspection)
    requires insp.httpRoot.status == Some(0) && insp.httpWww.status == Some(0)
    requires insp.httpsRoot.status == Some(0) && insp.httpsWww.status != Some(0)
    ensures Resolve(insp).protocol == Https && Resolve(insp).prefix == "www"
    ensures Resolve(insp).endpoint == insp.httpsWww
  {
    var cs := FallbackOrder(insp);
    var k := FirstLive(cs);
    assert IsDown(cs[0]) by {
      match insp.canonicalProtocol
      case Http =>
      case Https =>
    }
    assert IsDown(cs[1]) && IsDown(cs[2]) && !IsDown(cs[3]);
    assert k == 3;
  }

  /** A wildcard match with a status whose decimal form does not start with 2 yields no row. */
  lemma WildcardNoiseYieldsNothing(r: Resolved, probe: ProbeEntry, lib: Library)
    requires probe.matchedWild && !StartsWithTwo(r.choice.endpoint.status)
    ensures Finish(r, probe, lib).Rows() == []
    ensures r.choice.endpoint.status.Some? ==> Finish(r, probe, lib) == Skipped(WildcardNoise)
    ensures r.choice.endpoint.status.None? ==> Finish(r, probe, lib) == Raised(StatusNotFormattable)
  {
  }

  /** Otherwise exactly one row is yielded, carrying the resolved status, the flags, the match and the hash. */
  lemma OtherwiseOneRow(r: Resolved, probe: ProbeEntry, lib: Library)
    requires !probe.matchedWild || StartsWithTwo(r.choice.endpoint.status)
    ensures Finish(r, probe, lib).Rows() ==
      [Row(r.metadata, r.flags.external, r.flags.subdomain, r.choice.endpoint.status,
           probe.matchedWild, ContentHash(probe.content, lib.sha256))]
  {
  }

  /**
   * End to end: `apps.agency.gov`, canonical `https`/`root` with status 200
   * and no redirect, and an empty wildcard answer: one row, no wildcard
   * match, both flags false, status 200, and the digest of the content.
   */
  lemma EndToEndRow(tables: Tables, inspections: map<string, Inspection>, lib: Library, net: Network, domain: string)
    requires domain == "apps.agency.gov"
    requires domain !in tables.excluded && domain in inspections
    requires var insp := inspections[domain];
             insp.up && insp.canonicalProtocol == Https && insp.httpsRoot == EndpointStatus(Some(200), None)
    requires net.dig(WildcardFor(domain)) == Some("")
    ensures Gate(domain, tables, inspections, lib).Go?
    ensures var r := Gate(domain, tables, inspections, lib).resolved;
            var probe := ProbeCycle(domain, r.url, net);
            Finish(r, probe, lib).Rows() ==
              [Row(r.metadata, false, false, Some(200), false, ContentHash(probe.content, lib.sha256))]
  {
    var apps, agency, gov := "apps", "agency", "gov";
    assert domain == apps + "." + agency + "." + gov;
    ThreeLabels(apps, agency, gov);
    assert StripWww(domain) == domain;
    assert domain != agency + "." + gov;
  }

  /** With a wildcard match and status 404 the same subdomain yields nothing. */
  lemma EndToEndWildcardNoise(r: Resolved, probe: ProbeEntry, lib: Library)
    requires r.choice.endpoint.status == Some(404) && probe.matchedWild
    ensures Finish(r, probe, lib).Rows() == []
  {
    ThreeDigitTwoHundreds(404);
  }

  /**
   * `scan(domain, options)`, step by step. Whatever `Gate` stops on is
   * returned with the cache untouched and nothing run on the network; past
   * the gate, `network_check` is consulted once and `Finish` decides on its
   * response.
   */
  method Scan(domain: string, tables: Tables, inspections: map<string, Inspection>, force: bool,
              net: Network, lib: Library, cache: ProbeCache) returns (outcome: ScanOutcome)
    requires cache.Valid()
    modifies cache
    ensures cache.Valid()
    ensures Gate(domain, tables, inspections, lib).Stop? ==>
      outcome == Gate(domain, tables, inspections, lib).outcome
      && cache.entries == old(cache.entries) && cache.calls == old(cache.calls)
    ensures Gate(domain, tables, inspections, lib).Go? ==>
      var r := Gate(domain, tables, inspections, lib).resolved;
      && domain in cache.entries
      && outcome == Finish(r, cache.entries[domain], lib)
      && (!force && domain in old(cache.entries) ==>
            cache.entries == old(cache.entries) && cache.calls == old(cache.calls))
      && (force || domain !in old(cache.entries) ==>
            cache.entries == old(cache.entries)[domain := ProbeCycle(domain, r.url, net)]
            && cache.calls == old(cache.calls) + ProbeCalls(domain, r.url, net))
  {
    var baseOriginal := BaseDomainFor(domain);
    var subOriginal := domain;
    var baseMetadata := if baseOriginal in tables.owners then Some(tables.owners[baseOriginal]) else None;

    if domain in tables.excluded {
      return Skipped(Excluded);
    }
    if StripWww(domain) == baseOriginal {
      return Skipped(SecondLevel);
    }
    if domain !in inspections {
      return Skipped(NotInspected);
    }
    var inspection := inspections[domain];
    if !inspection.up {
      return Skipped(NotUp);
    }

    var choice := ResolveEndpoint(inspection);
    var status := choice.endpoint.status;
    var realPrefix := if choice.prefix == "root" then "" else "www.";
    if status == Some(0) {
      return Skipped(AllDown);
    }

    var redirectedExternal, redirectedSubdomain := false, false;
    if Truthy(choice.endpoint.redirectTo) {
      var host := lib.hostname(choice.endpoint.redirectTo.value);
      if host.None? {
        return Raised(RedirectWithoutHost);
      }
      var subRedirect := StripWww(host.value);
      var baseRedirect := BaseDomainFor(subRedirect);
      redirectedExternal := baseOriginal != baseRedirect;
      redirectedSubdomain := baseOriginal == baseRedirect && subOriginal != subRedirect;
    }
    var statusCode := status;

    var endpointUrl := choice.protocol.Name() + "://" + realPrefix + subOriginal;
    var network := cache.NetworkCheck(subOriginal, endpointUrl, force, net);
    var matchedWild := network.matchedWild;
    var hashed := if Truthy(network.content) then lib.sha256(network.content.value) else None;

    if matchedWild && !StartsWithTwo(status) {
      if status.None? {
        return Raised(StatusNotFormattable);
      }
      return Skipped(WildcardNoise);
    }
    outcome := Emitted(Row(baseMetadata, redirectedExternal, redirectedSubdomain, statusCode, matchedWild, hashed));
  }
}

/**
  The request router. Per request it either passes the request through
  untouched or annotates the response with the tenant's domain, site
  identifier and locale. Paths of the API, of the framework and of static
  files leave before the registry is consulted; a domain outside the
  allow-list is looked up, then passed through with a warning.
 */
module Middleware {
  import opened Options
  import opened Text
  import opened Decimal
  import opened Environment
  import opened DomainResolver
  import opened DomainConfig

  /**
    What one request produced: the headers set on the response (none for a
    passthrough), the domain the registry was asked about, if it was, and the
    warning logged, if any.
   */
  datatype Outcome = Outcome(headers: map<string, string>, registryLookup: Option<string>, warning: Option<string>)
  {
    predicate IsPassthrough() { headers == map[] }
  }

  /** The fast exit on path shape. */
  predicate IsSkipped(pathname: string)
  {
    StartsWith(pathname, "/api") || StartsWith(pathname, "/_next") || '.' in pathname
  }

  /**
    `String(DOMAIN_MAPPING[domain] || 1)`: the mapped site, unless the entry is
    absent or 0. A reader of the header gets that number back.
   */
  function SiteIdHeader(mapping: map<string, int>, domain: string): (value: string)
    ensures IsIntText(value)
    ensures ParseInt(value) == Some(if domain in mapping && mapping[domain] != 0 then mapping[domain] else 1)
  {
    var id := if domain in mapping && mapping[domain] != 0 then mapping[domain] else 1;
    IntRoundTrip(id);
    IntToDecimal(id)
  }

  function WarningFor(domain: string): string
  {
    "Domain not configured: " + domain
  }

  /** The middleware. */
  method Handle(host: Option<string>, pathname: string, env: Settings) returns (out: Outcome)
    ensures IsSkipped(pathname) ==> out == Outcome(map[], None, None)
    ensures !IsSkipped(pathname) ==> out.registryLookup == Some(ResolveDomain(host))
    ensures !IsSkipped(pathname) && ResolveDomain(host) !in AllowList(env.nextPublicDomains) ==>
      out.IsPassthrough() && out.warning == Some(WarningFor(ResolveDomain(host)))
    ensures !IsSkipped(pathname) && ResolveDomain(host) in AllowList(env.nextPublicDomains) ==>
      var domain := ResolveDomain(host);
      var locale := GetDomainConfig(domain, env.wordpressApiUrl).locale;
      && out.warning == None
      && out.headers.Keys == {"x-domain", "x-wordpress-site-id"} + (if locale != "" then {"x-locale"} else {})
      && out.headers["x-domain"] == domain
      && out.headers["x-wordpress-site-id"] == SiteIdHeader(env.domainMapping, domain)
      && ("x-locale" in out.headers ==> out.headers["x-locale"] == locale)
  {
    var domain := ResolveDomain(host);
    if IsSkipped(pathname) {
      return Outcome(map[], None, None);
    }
    var config := GetDomainConfig(domain, env.wordpressApiUrl);
    if domain !in AllowList(env.nextPublicDomains) {
      return Outcome(map[], Some(domain), Some(WarningFor(domain)));
    }
    var headers: map<string, string> := map[];
    headers := headers["x-domain" := domain];
    headers := headers["x-wordpress-site-id" := SiteIdHeader(env.domainMapping, domain)];
    if config.locale != "" {
      headers := headers["x-locale" := config.locale];
    }
    out := Outcome(headers, Some(domain), None);
  }

  /** The paths the router leaves to other handlers, including every path that contains a dot. */
  lemma SkippedPaths(rest: string, p: string)
    ensures IsSkipped("/api" + rest) && IsSkipped("/_next" + rest)
    ensures '.' in p ==> IsSkipped(p)
  {
    assert ("/api" + rest)[..4] == "/api";
    assert ("/_next" + rest)[..6] == "/_next";
  }

  /**
    The router's tests: a site mapped to 1, 2 or 3 is written as that single
    digit, and a domain the mapping lacks as "1".
   */
  lemma SmallSiteIds(mapping: map<string, int>, domain: string)
    requires domain in mapping ==> 0 < mapping[domain] < 10
    ensures domain in mapping ==> SiteIdHeader(mapping, domain) == [DigitChar(mapping[domain])]
    ensures domain !in mapping ==> SiteIdHeader(mapping, domain) == "1"
  {
    var id := if domain in mapping then mapping[domain] else 1;
    assert NatToDecimal(id) == [DigitChar(id)];
  }

  /** The prefix test is on text, not on path segments: `/apidocs` is skipped too. */
  lemma PrefixIsNotSegment()
    ensures IsSkipped("/apidocs")
  {
    assert "/apidocs"[..4] == "/api";
  }

  /**
    A variable set to the empty text allows the empty domain: a request with no
    `host` header is then annotated, with an empty `x-domain`.
   */
  lemma EmptyAllowListAdmitsMissingHost()
    ensures AllowList(Some("")) == [""]
    ensures ResolveDomain(None) in AllowList(Some(""))
  {
    assert ResolveDomain(None) == "";
  }

  /** The router's tests send `testopsfactory.com:3000`; the port is dropped before any lookup. */
  lemma TestHostWithPort()
    ensures ResolveDomain(Some("testopsfactory.com:3000")) == "testopsfactory.com"
  {
    StripPortOfHostAndPort("testopsfactory.com", "3000");
    assert "testopsfactory.com:3000" == "testopsfactory.com" + ":" + "3000";
  }
}

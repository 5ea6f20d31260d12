/**
  The domain resolver: the raw `host` header, with a missing header read as
  "", and one trailing `:<digits>` group removed, as `host.replace(/:\d+$/, '')`
  does. This is the only normalisation before the tenant registry.
 */
module DomainResolver {
  import opened Options
  import opened Text

  /** `req.headers.host || ''`. */
  function HostOf(header: Option<string>): (host: string)
    ensures header.None? ==> host == ""
    ensures header.Some? ==> host == header.value
  {
    match header
    case None => ""
    case Some(h) => h
  }

  /** The regular expression `/:\d+$/` matches `host` at position `i`. */
  predicate PortSuffixAt(host: string, i: int)
  {
    0 <= i && i + 1 < |host| && host[i] == ':' &&
    forall j :: i < j < |host| ==> IsDigit(host[j])
  }

  /** Length of the longest run of digits that ends `s`. */
  function TrailingDigits(s: string): (k: nat)
    ensures k <= |s|
    ensures forall j :: |s| - k <= j < |s| ==> IsDigit(s[j])
    ensures k < |s| ==> !IsDigit(s[|s| - k - 1])
  {
    if s != [] && IsDigit(s[|s| - 1]) then TrailingDigits(s[..|s| - 1]) + 1 else 0
  }

  /** Removes the text the regular expression matches, when it matches. */
  function StripPort(host: string): (domain: string)
    ensures forall i :: PortSuffixAt(host, i) ==> domain == host[..i]
    ensures (forall i :: !PortSuffixAt(host, i)) ==> domain == host
  {
    var k := TrailingDigits(host);
    var colon := |host| - k - 1;
    if 0 < k < |host| && host[colon] == ':' then
      assert PortSuffixAt(host, colon);
      host[..colon]
    else
      host
  }

  /** The domain a request belongs to, as the router, the proxy and the session verifier compute it. */
  function ResolveDomain(header: Option<string>): string
  {
    StripPort(HostOf(header))
  }

  /** A `:<port>` suffix is removed, and only the last such group: `a:1:2` becomes `a:1`. */
  lemma StripPortOfHostAndPort(domain: string, port: string)
    requires port != [] && forall j :: 0 <= j < |port| ==> IsDigit(port[j])
    ensures StripPort(domain + ":" + port) == domain
  {
    var h := domain + ":" + port;
    assert PortSuffixAt(h, |domain|) by {
      forall j | |domain| < j < |h| ensures IsDigit(h[j]) {
        assert h[j] == port[j - |domain| - 1];
      }
    }
    assert h[..|domain|] == domain;
  }

  /** A host without a colon is its own domain; so is the empty host. */
  lemma StripPortWithoutColon(host: string)
    requires ':' !in host
    ensures StripPort(host) == host
  {
  }
}

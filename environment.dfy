/**
  The process environment the gateway reads once at start-up, passed in as a
  value. An unset variable and an empty one are both falsy in the source's
  `x || default` expressions, so both are written "" here; the one variable
  whose absence and emptiness differ (`NEXT_PUBLIC_DOMAINS`) is an Option.
 */
module Environment {
  import opened Options
  import opened Text

  datatype Settings = Settings(
    wordpressApiUrl: string,          // NEXT_PUBLIC_WORDPRESS_API_URL
    nextPublicDomains: Option<string>, // NEXT_PUBLIC_DOMAINS, comma separated
    domainMapping: map<string, int>,  // DOMAIN_MAPPING, after JSON.parse
    authCookieName: string,           // WP_AUTH_COOKIE_NAME
    nodeEnv: string)                  // NODE_ENV

  const DefaultCookieName: string := "wordpress_logged_in"

  /** `process.env.WP_AUTH_COOKIE_NAME || 'wordpress_logged_in'`. */
  function CookieName(env: Settings): (name: string)
    ensures name != ""
    ensures env.authCookieName != "" ==> name == env.authCookieName
    ensures env.authCookieName == "" ==> name == DefaultCookieName
  {
    if env.authCookieName != "" then env.authCookieName else DefaultCookieName
  }

  /** The cookie `Secure` attribute is emitted only in this mode. */
  predicate IsProduction(env: Settings)
  {
    env.nodeEnv == "production"
  }

  /**
    `process.env.NEXT_PUBLIC_DOMAINS?.split(',') || []`: an unset variable
    gives no domain; a set one, even empty, gives its comma-separated pieces.
   */
  function AllowList(raw: Option<string>): (domains: seq<string>)
    ensures raw.None? ==> domains == []
    ensures raw.Some? ==> |domains| >= 1 && Join(domains, ',') == raw.value
    ensures forall i :: 0 <= i < |domains| ==> ',' !in domains[i]
  {
    match raw
    case None => []
    case Some(v) => JoinSplit(v, ','); SplitPiecesLackSeparator(v, ','); Split(v, ',')
  }

  /** Conversely, comma-joined names without commas give back exactly those names, in order. */
  lemma AllowListOfJoined(domains: seq<string>)
    requires |domains| >= 1
    requires forall i :: 0 <= i < |domains| ==> ',' !in domains[i]
    ensures AllowList(Some(Join(domains, ','))) == domains
  {
    SplitJoin(domains, ',');
  }
}

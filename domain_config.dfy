/**
  The tenant registry: a fixed table from domain to site configuration, read
  after removing one leading `www.`, with a default configuration for every
  key the table lacks. Matching is exact: no case folding, no port removal.
 */
module DomainConfig {
  import opened Options
  import opened Text

  datatype Theme = Theme(primaryColor: string, secondaryColor: string, logo: string)

  datatype Config = Config(siteId: int, locale: string, apiEndpoint: string, theme: Option<Theme>)

  const FallbackEndpoint: string := "https://testopsfactory.com/graphql"

  /** DEFAULT_CONFIG, whose endpoint is the configured override when that is non-empty. */
  function DefaultConfig(wordpressApiUrl: string): (c: Config)
    ensures c.siteId == 1 && c.locale == "en-US"
    ensures c.apiEndpoint == if wordpressApiUrl != "" then wordpressApiUrl else FallbackEndpoint
  {
    Config(1, "en-US", if wordpressApiUrl != "" then wordpressApiUrl else FallbackEndpoint,
           Some(Theme("#0070f3", "#ff4081", "/images/logo-default.svg")))
  }

  /** domainConfigs. */
  function Table(): map<string, Config>
  {
    map[
      "testopsfactory.com" := Config(1, "en-US", "https://testopsfactory.com/graphql",
        Some(Theme("#0070f3", "#ff4081", "/images/logo-testopsfactory-com.svg"))),
      "testopsfactory.fr" := Config(2, "fr-FR", "https://testopsfactory.fr/graphql",
        Some(Theme("#3f51b5", "#ff9800", "/images/logo-testopsfactory-fr.svg"))),
      "pierrepellegrini.fr" := Config(3, "fr-FR", "https://pierrepellegrini.fr/graphql",
        Some(Theme("#4caf50", "#ff5722", "/images/logo-pierrepellegrini-fr.svg")))
    ]
  }

  lemma TableKeys()
    ensures Table().Keys == {"testopsfactory.com", "testopsfactory.fr", "pierrepellegrini.fr"}
  {
  }

  /** `domain.replace(/^www\./, '')`: one leading `www.` goes, nothing else changes. */
  function StripWww(domain: string): (d: string)
    ensures StartsWith(domain, "www.") ==> domain == "www." + d
    ensures !StartsWith(domain, "www.") ==> d == domain
  {
    if StartsWith(domain, "www.") then domain[4..] else domain
  }

  /** getDomainConfig: total; a hit returns the table's entry, a miss the default. */
  function GetDomainConfig(domain: string, wordpressApiUrl: string): (c: Config)
    ensures StripWww(domain) in Table() ==> c == Table()[StripWww(domain)]
    ensures StripWww(domain) !in Table() ==> c == DefaultConfig(wordpressApiUrl)
  {
    var key := StripWww(domain);
    if key in Table() then Table()[key] else DefaultConfig(wordpressApiUrl)
  }

  /** getAllDomains: the table's keys, in the order the table declares them. */
  function GetAllDomains(): (domains: seq<string>)
    ensures |domains| == |Table().Keys|
    ensures forall d :: d in domains <==> d in Table()
    ensures forall i, j :: 0 <= i < j < |domains| ==> domains[i] != domains[j]
  {
    ["testopsfactory.com", "testopsfactory.fr", "pierrepellegrini.fr"]
  }

  /** getSiteId: the looked-up configuration's site; every tenant site is 1, 2 or 3. */
  function GetSiteId(domain: string, wordpressApiUrl: string): (id: int)
    ensures id == GetDomainConfig(domain, wordpressApiUrl).siteId
    ensures 1 <= id <= 3
    ensures StripWww(domain) !in Table() ==> id == 1
  {
    GetDomainConfig(domain, wordpressApiUrl).siteId
  }

  /** getApiEndpoint: the looked-up configuration's endpoint; a miss is served by the override or the fallback. */
  function GetApiEndpoint(domain: string, wordpressApiUrl: string): (endpoint: string)
    ensures endpoint == GetDomainConfig(domain, wordpressApiUrl).apiEndpoint
    ensures StripWww(domain) !in Table() ==>
      endpoint == if wordpressApiUrl != "" then wordpressApiUrl else FallbackEndpoint
  {
    GetDomainConfig(domain, wordpressApiUrl).apiEndpoint
  }

  // ---------------------------------------------------------------------------
  // Properties of the registry

  /** A leading `www.` in front of a name that has none is ignored. */
  lemma WwwIsIgnored(d: string, wordpressApiUrl: string)
    requires !StartsWith(d, "www.")
    ensures GetDomainConfig("www." + d, wordpressApiUrl) == GetDomainConfig(d, wordpressApiUrl)
  {
    assert StartsWith("www." + d, "www.");
    assert ("www." + d)[4..] == d;
  }

  /** Only one `www.` is removed: `www.www.` in front of a tenant reaches the default. */
  lemma OnlyOneWwwIsRemoved(wordpressApiUrl: string)
    ensures GetDomainConfig("www.www.testopsfactory.fr", wordpressApiUrl) == DefaultConfig(wordpressApiUrl)
  {
    assert StripWww("www.www.testopsfactory.fr") == "www.testopsfactory.fr";
  }

  /** Matching is case-sensitive: an upper-case spelling of a tenant reaches the default. */
  lemma LookupIsCaseSensitive(wordpressApiUrl: string)
    ensures GetDomainConfig("TestOpsFactory.fr", wordpressApiUrl) == DefaultConfig(wordpressApiUrl)
  {
    NotStartsWith("TestOpsFactory.fr", "www.", 0);
  }

  /** The three tenants: their sites, their locales and their own `/graphql` endpoints. */
  lemma ConfiguredTenants(wordpressApiUrl: string)
    ensures GetDomainConfig("testopsfactory.com", wordpressApiUrl).siteId == 1
    ensures GetDomainConfig("testopsfactory.fr", wordpressApiUrl).siteId == 2
    ensures GetDomainConfig("pierrepellegrini.fr", wordpressApiUrl).siteId == 3
    ensures GetDomainConfig("testopsfactory.com", wordpressApiUrl).locale == "en-US"
    ensures GetDomainConfig("testopsfactory.fr", wordpressApiUrl).locale == "fr-FR"
    ensures GetDomainConfig("pierrepellegrini.fr", wordpressApiUrl).locale == "fr-FR"
    ensures GetApiEndpoint("testopsfactory.com", wordpressApiUrl) == "https://testopsfactory.com/graphql"
    ensures GetApiEndpoint("testopsfactory.fr", wordpressApiUrl) == "https://testopsfactory.fr/graphql"
    ensures GetApiEndpoint("pierrepellegrini.fr", wordpressApiUrl) == "https://pierrepellegrini.fr/graphql"
  {
    NotStartsWith("testopsfactory.com", "www.", 0);
    NotStartsWith("testopsfactory.fr", "www.", 0);
    NotStartsWith("pierrepellegrini.fr", "www.", 0);
  }

  /** Distinct tenants have distinct sites. */
  lemma SitesAreDistinct(d1: string, d2: string)
    requires d1 in Table() && d2 in Table() && d1 != d2
    ensures Table()[d1].siteId != Table()[d2].siteId
  {
  }

  /** Every configuration the registry can return declares a locale. */
  lemma LocaleIsNeverEmpty(domain: string, wordpressApiUrl: string)
    ensures GetDomainConfig(domain, wordpressApiUrl).locale != ""
  {
  }

  /** Every listed domain is a hit of the lookup, and none begins with `www.`. */
  lemma ListedDomainsAreHits(i: int, wordpressApiUrl: string)
    requires 0 <= i < |GetAllDomains()|
    ensures !StartsWith(GetAllDomains()[i], "www.")
    ensures GetDomainConfig(GetAllDomains()[i], wordpressApiUrl) == Table()[GetAllDomains()[i]]
  {
    var d := GetAllDomains()[i];
    NotStartsWith(d, "www.", 0);
  }

  // ---------------------------------------------------------------------------
  // Reading the table as a JavaScript object

  /**
    Names every plain object inherits from Object.prototype. Reading one of them
    on the table yields a truthy function or object, not undefined.
   */
  const PrototypeKeys: set<string> := {
    "constructor", "hasOwnProperty", "isPrototypeOf", "propertyIsEnumerable",
    "toLocaleString", "toString", "valueOf", "__proto__",
    "__defineGetter__", "__defineSetter__", "__lookupGetter__", "__lookupSetter__"
  }

  /** What `obj[key]` yields on the table, as JavaScript reads it. */
  datatype JsValue = ConfigObject(config: Config) | PrototypeMember(name: string) | Undefined

  function PropertyOf(key: string): JsValue
  {
    if key in Table() then ConfigObject(Table()[key])
    else if key in PrototypeKeys then PrototypeMember(key)
    else Undefined
  }

  /** `domainConfigs[normalizedDomain] || DEFAULT_CONFIG`, as the lookup is written. */
  function GetDomainConfigAsWritten(domain: string, wordpressApiUrl: string): (v: JsValue)
    ensures !v.Undefined?
  {
    var v := PropertyOf(StripWww(domain));
    if v.Undefined? then ConfigObject(DefaultConfig(wordpressApiUrl)) else v
  }

  /** As written, a host named after an inherited member escapes the default configuration. */
  lemma PrototypeKeyEscapesDefault(wordpressApiUrl: string)
    ensures GetDomainConfigAsWritten("constructor", wordpressApiUrl) == PrototypeMember("constructor")
    ensures GetDomainConfigAsWritten("www.toString", wordpressApiUrl) == PrototypeMember("toString")
  {
    NotStartsWith("constructor", "www.", 0);
    assert StripWww("www.toString") == "toString";
  }

  /** Away from those names, the lookup as written and GetDomainConfig agree. */
  lemma AsWrittenAgreesOffPrototype(domain: string, wordpressApiUrl: string)
    requires StripWww(domain) !in PrototypeKeys
    ensures GetDomainConfigAsWritten(domain, wordpressApiUrl) == ConfigObject(GetDomainConfig(domain, wordpressApiUrl))
  {
  }
}

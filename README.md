# Multi-tenant gateway of the Testopsfactory Next.js front end

One Next.js deployment serves several WordPress sites. Each site is called a
tenant and is chosen by the request's `host` header. The gateway has four parts,
and this project models each one in Dafny:

- **Tenant registry** (`DomainConfig`). A fixed table from domain to site
  identifier, locale, GraphQL endpoint and theme. One leading `www.` is dropped
  before the lookup, and a domain the table lacks gets a default configuration.
- **Request router** (`Middleware`). Paths of the API, of the framework and of
  static files pass straight through. For every other path it resolves the
  domain (the `host` header with any `:<port>` removed). It checks the domain
  against the `NEXT_PUBLIC_DOMAINS` allow-list. An allowed domain gets
  `x-domain`, `x-wordpress-site-id` and, when the tenant declares one,
  `x-locale`. A domain that is not allowed passes through with a warning.
- **GraphQL proxy** (`GraphqlProxy`). Accepts only POST and requires a query.
  It forwards `{query, variables, operationName}` and the caller's
  `Authorization` header to the tenant's endpoint. It relays the backend's
  status and JSON body, and turns every failure into one fixed 500 reply.
- **Session verifier and cookie helpers** (`Auth`). Reads the authentication
  cookie from the raw `Cookie` header. Sends it to the tenant's "current user"
  endpoint and builds the session from the answer. Writes and clears the
  cookie through one `Set-Cookie` header. Also checks roles.

Helper modules:

- `Text` spells out the JavaScript string operations the code relies on:
  `split` with one character, `trim` and first-occurrence `replace`.
- `DomainResolver` is the shared `host || ''` plus `/:\d+$/` normalisation.
- `Environment` passes the process environment in as a value.
- `Decimal` is `String(n)` for a safe integer `n`, and reading it back.
- `Http` holds the opaque JSON values and `response.ok`.

The network is not modelled. The backend's answer (`upstream`, `reply`) and the
clock reading (`now`) are parameters. Each handler returns an outcome recording
what it would have sent.

The registry matches domains exactly, as the code does, with no case folding;
`DomainConfig.LookupIsCaseSensitive` states this.

## Model

| member | source | states |
|---|---|---|
| DomainConfig.DefaultConfig | Environments/DEV/Nextjs/src/lib/domain-config.ts:28-37 | the default has site 1 and locale en-US; its endpoint is the configured override when that is non-empty, otherwise the built-in fallback |
| DomainConfig.TableKeys | Environments/DEV/Nextjs/src/lib/domain-config.ts:40-71 | the table holds exactly the three tenant domains |
| DomainConfig.StripWww | Environments/DEV/Nextjs/src/lib/domain-config.ts:81 | one leading `www.` is removed and nothing else; a name without it is unchanged |
| DomainConfig.GetDomainConfig | Environments/DEV/Nextjs/src/lib/domain-config.ts:79-85 | the lookup is total: a hit after `www.` removal returns that entry, a miss returns the default (only the table's own keys count) |
| DomainConfig.GetAllDomains | Environments/DEV/Nextjs/src/lib/domain-config.ts:92-94 | lists exactly the table's domains, without duplicates |
| DomainConfig.GetSiteId | Environments/DEV/Nextjs/src/lib/domain-config.ts:102-104 | the site of the looked-up configuration: always 1 to 3, and 1 on a miss |
| DomainConfig.GetApiEndpoint | Environments/DEV/Nextjs/src/lib/domain-config.ts:112-114 | the endpoint of the looked-up configuration; a miss gives the override or the fallback |
| DomainConfig.WwwIsIgnored | Environments/DEV/Nextjs/src/lib/domain-config.ts:81 | `www.d` and `d` give the same configuration when `d` has no `www.` of its own |
| DomainConfig.OnlyOneWwwIsRemoved | Environments/DEV/Nextjs/src/lib/domain-config.ts:81 | `www.www.testopsfactory.fr` misses and gets the default |
| DomainConfig.LookupIsCaseSensitive | Environments/DEV/Nextjs/src/lib/domain-config.ts:84 | an upper-case spelling of a tenant misses and gets the default |
| DomainConfig.ConfiguredTenants | Environments/DEV/Nextjs/src/lib/domain-config.ts:41-70 | the sites, locales and endpoints of the three tenants |
| DomainConfig.SitesAreDistinct | Environments/DEV/Nextjs/src/lib/domain-config.ts:40-71 | different tenants have different sites |
| DomainConfig.LocaleIsNeverEmpty | Environments/DEV/Nextjs/src/lib/domain-config.ts:28-71 | every configuration the lookup returns declares a locale |
| DomainConfig.ListedDomainsAreHits | Environments/DEV/Nextjs/src/lib/domain-config.ts:92-94 | every listed domain is a hit of the lookup, and none starts with `www.` |
| DomainConfig.GetDomainConfigAsWritten | Environments/DEV/Nextjs/src/lib/domain-config.ts:84 | the lookup as JavaScript evaluates it never yields undefined |
| DomainConfig.PrototypeKeyEscapesDefault | Environments/DEV/Nextjs/src/lib/domain-config.ts:84 | as written, the hosts `constructor` and `www.toString` yield an inherited member instead of the default |
| DomainConfig.AsWrittenAgreesOffPrototype | Environments/DEV/Nextjs/src/lib/domain-config.ts:84 | away from inherited names, the lookup as written equals GetDomainConfig |
| DomainResolver.HostOf | Environments/TEST/Nextjs/src/middleware.ts:25 | a missing `host` header reads as the empty text, a present one as itself |
| DomainResolver.StripPort | Environments/TEST/Nextjs/src/middleware.ts:26 | when `/:\d+$/` matches at position i the domain is the text before i; otherwise the host is unchanged |
| DomainResolver.StripPortOfHostAndPort | Environments/TEST/Nextjs/src/middleware.ts:26 | `d:<digits>` resolves to `d`, even when `d` itself holds a colon |
| DomainResolver.StripPortWithoutColon | Environments/TEST/Nextjs/src/middleware.ts:26 | a host without a colon is its own domain |
| Environment.AllowList | Environments/TEST/Nextjs/src/middleware.ts:13 | an unset variable gives no domains; a set one gives comma-free pieces that join back to the variable |
| Environment.AllowListOfJoined | Environments/TEST/Nextjs/src/middleware.ts:13 | comma-joined comma-free names give back exactly those names, in order |
| Environment.CookieName | Environments/DEV/Nextjs/src/lib/auth.ts:98 | the configured cookie name when non-empty, otherwise `wordpress_logged_in`; never empty |
| Decimal.IntToDecimal | Environments/TEST/Nextjs/src/middleware.ts:54 | `String(n)` writes digits only, with a `-` exactly when `n` is negative and no leading zero except in "0" |
| Decimal.IntRoundTrip | Environments/TEST/Nextjs/src/middleware.ts:54 | reading back `String(n)` gives `n` |
| Decimal.IntTextIsUnique | Environments/TEST/Nextjs/src/middleware.ts:54 | two texts of that form that read as the same integer are equal, so the form and the value fix the text |
| Middleware.SiteIdHeader | Environments/TEST/Nextjs/src/middleware.ts:54 | the header is written as `String` writes an integer and reads back as the mapped site, or 1 when the entry is absent or 0; with IntTextIsUnique this is exactly `String(n)` |
| Middleware.SmallSiteIds | Environments/TEST/Nextjs/src/middleware.ts:54 | a site mapped to 1 to 9 is written as that one digit, and an unmapped domain as "1" |
| Middleware.Handle | Environments/TEST/Nextjs/src/middleware.ts:23-67 | skipped paths pass through without a lookup; other paths consult the registry; a domain outside the allow-list passes through with the warning; an allowed one gets exactly `x-domain`, `x-wordpress-site-id` and, for a non-empty locale, `x-locale` |
| Middleware.SkippedPaths | Environments/TEST/Nextjs/src/middleware.ts:29-35 | every `/api…` and `/_next…` path, and every path that contains a dot, is skipped |
| Middleware.PrefixIsNotSegment | Environments/TEST/Nextjs/src/middleware.ts:30 | the test is on text prefixes, so `/apidocs` is skipped too |
| Middleware.EmptyAllowListAdmitsMissingHost | Environments/TEST/Nextjs/src/middleware.ts:41 | an empty `NEXT_PUBLIC_DOMAINS` allows the empty domain of a request without `host` |
| Middleware.TestHostWithPort | Environments/TEST/Nextjs/src/middleware.ts:25-26 | `testopsfactory.com:3000` resolves to `testopsfactory.com` |
| GraphqlProxy.ForwardHeaders | Environments/DEV/Nextjs/src/pages/api/graphql.ts:47-53 | always the JSON content type; `Authorization` exactly when the caller sent a non-empty one, copied verbatim; nothing else |
| GraphqlProxy.Handle | Environments/DEV/Nextjs/src/pages/api/graphql.ts:17-70 | non-POST gets 405 with no lookup; a missing query gets 400 and a null body 500, both without a call; otherwise exactly the three fields go to the tenant's endpoint, and the backend's status and JSON are relayed or replaced by the fixed 500 |
| GraphqlProxy.FailureIsOpaque | Environments/DEV/Nextjs/src/pages/api/graphql.ts:66-69 | every failed call or undecodable answer gives the same outcome |
| GraphqlProxy.CallPrecedesAnswer | Environments/DEV/Nextjs/src/pages/api/graphql.ts:45-59 | whether and what is sent does not depend on the answer |
| GraphqlProxy.RepliesAreFixedOrRelayed | Environments/DEV/Nextjs/src/pages/api/graphql.ts:19-69 | every reply is one of the three fixed errors or the backend's own status and body |
| GraphqlProxy.UpstreamErrorsPassThrough | Environments/DEV/Nextjs/src/pages/api/graphql.ts:62-65 | a backend error status and its payload reach the caller unchanged |
| GraphqlProxy.ForwardsToTenant | Environments/DEV/Nextjs/src/pages/api/graphql.ts:25-29 | a `host` of `d:<port>` is forwarded to the endpoint of `d` |
| Auth.HasRole | Environments/DEV/Nextjs/src/lib/auth.ts:124-127 | false without a user; otherwise true exactly when some role equals the one asked for |
| Auth.IsAdmin | Environments/DEV/Nextjs/src/lib/auth.ts:135-137 | the `administrator` role check |
| Auth.CreateEmptySession | Environments/DEV/Nextjs/src/lib/auth.ts:147-154 | a well-formed logged-out session for the given domain |
| Auth.GetHostFromRequest | Environments/DEV/Nextjs/src/lib/auth.ts:197-200 | the resolved domain; "" without a `host` header |
| Auth.ParseCookies | Environments/DEV/Nextjs/src/lib/auth.ts:177-189 | the loop fills exactly the dictionary CookieJar describes: nothing for an absent or empty header, otherwise each piece stored in order |
| Auth.CookieValue | Environments/DEV/Nextjs/src/lib/auth.ts:168 | a value exactly when the name is stored with a defined non-empty value, and then that value |
| Auth.GetAuthCookie | Environments/DEV/Nextjs/src/lib/auth.ts:162-169 | a value exactly when the configured cookie is stored with a defined non-empty value, and then that value; none without a `Cookie` header |
| Auth.PieceIsSplit | Environments/DEV/Nextjs/src/lib/auth.ts:184 | a piece's name and value are the first two parts of the trimmed piece split on `=`, the value undefined when there is one part |
| Auth.StoreNames | Environments/DEV/Nextjs/src/lib/auth.ts:183-186 | the stored names are exactly the names of the pieces |
| Auth.StoreLastWins | Environments/DEV/Nextjs/src/lib/auth.ts:183-186 | a name holds the value of its last piece |
| Auth.PlainPiece | Environments/DEV/Nextjs/src/lib/auth.ts:184 | `name=value` reads as that name and value |
| Auth.SpacedPlainPiece | Environments/DEV/Nextjs/src/lib/auth.ts:184 | the space after `;` is trimmed away |
| Auth.SingleCookieIsRead | Environments/DEV/Nextjs/src/lib/auth.ts:177-189 | a header holding one plain cookie gives back its value |
| Auth.LastCookieIsRead | Environments/DEV/Nextjs/src/lib/auth.ts:183-186 | whatever precedes it, the cookie appended last is the one read |
| Auth.PaddedValueIsCut | Environments/DEV/Nextjs/src/lib/auth.ts:184 | a value holding `=` is cut there: the base64 token `t==` is read as `t` |
| Auth.EmptyValueReadsAsAbsent | Environments/DEV/Nextjs/src/lib/auth.ts:168 | `name=` reads as no cookie |
| Auth.IdentityUrl | Environments/DEV/Nextjs/src/lib/auth.ts:53 | the endpoint with its first `/graphql` removed, then the users/me path |
| Auth.IdentityUrlOfTenant | Environments/DEV/Nextjs/src/lib/auth.ts:53 | `https://d/graphql` becomes `https://d/wp-json/wp/v2/users/me` when the host holds no `/graphql` |
| Auth.IdentityUrlCutsHost | Environments/DEV/Nextjs/src/lib/auth.ts:53 | for a host starting with `graphql`, the removal cuts into the host instead of the path |
| Auth.UserFrom | Environments/DEV/Nextjs/src/lib/auth.ts:66-73 | id, name and email are copied; roles default to none, avatar to "" and meta to `{}` |
| Auth.GetSession | Environments/DEV/Nextjs/src/lib/auth.ts:36-88 | always well formed and for the resolved domain; a call is sent exactly when there is a cookie, to the identity URL with that cookie; logged in exactly when the answer is ok and decodes, then with the decoded user and expiry now plus 24 hours; otherwise the empty session |
| Auth.LoggedInExpiresLater | Environments/DEV/Nextjs/src/lib/auth.ts:76 | a logged-in session expires 86 400 000 ms after the clock reading |
| Auth.NoCookieNoCall | Environments/DEV/Nextjs/src/lib/auth.ts:46-50 | without a cookie the answer and the clock do not matter, and the session is empty |
| Auth.SetCookieIsAttributes | Environments/DEV/Nextjs/src/lib/auth.ts:102 | the cookie string splits on `;` into the name and token, Path, HttpOnly, Secure only in production, SameSite, Domain and a Max-Age of 86400 |
| Auth.SetCookieCarriesToken | Environments/DEV/Nextjs/src/lib/auth.ts:97-103 | the first piece of the cookie set is read back as the token |
| Auth.ClearedCookieFirstPiece | Environments/DEV/Nextjs/src/lib/auth.ts:114 | the cleared cookie's first piece is `name=`, the piece EmptyValueReadsAsAbsent reads as no cookie |
| Auth.ApiResponse.SetAuthCookie | Environments/DEV/Nextjs/src/lib/auth.ts:97-103 | replaces the `set-cookie` header with the cookie string and leaves the other headers alone |
| Auth.ApiResponse.ClearAuthCookie | Environments/DEV/Nextjs/src/lib/auth.ts:111-115 | replaces the `set-cookie` header with the expired cookie and leaves the other headers alone |

## Left out

- The network calls (`fetch`, `response.json()`) are not made. Their result is a parameter, and each outcome records the request that would be sent.
- `Date.now()` is the parameter `now`.
- async/await is not modelled: each handler is one function of its inputs.
- Logging is not modelled: `console.log`, `console.warn` and `console.error`, and the development-only branches around them. The router's warning is kept in its outcome.
- The Next.js route matcher, the proxy's 2 MB body-size limit and `nextUrl.clone()` are not modelled: the clone is never used.
- `DOMAIN_MAPPING` arrives already decoded, as a map from domain to integer. A parse failure at start-up and non-integer values are not modelled.
- Middleware.SiteIdHeader: the mapping's values are assumed to be safe integers (at most 2^53 − 1 in magnitude). JavaScript numbers beyond that lose precision, and from 1e21 on `String` writes them in exponent form; Decimal.IntToDecimal writes every digit.
- Reading `DOMAIN_MAPPING` or the cookies object under an inherited name such as `constructor` or `__proto__` is not modelled. The registry's case of this is under Findings.
- The GraphQL body is either a decoded object with a string query or null/undefined. A query that is not a string, or a body that is a bare string, is not modelled.
- `UserFrom`: the backend's user is assumed to decode with correctly typed fields. A field of another JSON type (a non-array `roles`, say) is not modelled.
- `Auth.ApiResponse`: header names are stored in lower case, as Node.js does. The rest of the response object is not modelled.
- `Environments/TEST/Nextjs/src/pages/api/health.js` is not part of this model.

## Findings

| source | as written | input that shows it | evidently intended | confidence | as-written member | corrected member |
|---|---|---|---|---|---|---|
| Environments/DEV/Nextjs/src/lib/domain-config.ts:84 | `domainConfigs[normalizedDomain] \|\| DEFAULT_CONFIG` reads the table as a plain object, so names inherited from Object.prototype count as hits | a request whose `host` is `constructor` or `www.toString` gets a function instead of DEFAULT_CONFIG: the router sends no `x-locale`; the proxy, given a query, fetches `undefined` and answers 500; getSession, given an auth cookie, falls into its catch | every domain the table does not itself declare gets DEFAULT_CONFIG | high; not executed | DomainConfig.PrototypeKeyEscapesDefault | DomainConfig.GetDomainConfig |

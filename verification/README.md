# Neo4j provider: connection resolver and authentication lifecycle

A Dafny model of the two pieces of decision logic in the `Neo4jProvider`
React component of `use-neo4j` (`src/neo4j.provider.tsx`):

- **The URL-parameter connection resolver.** When the caller hands the
  provider no driver, it reads the page's `url`, `user`, `pass` and
  `database` query parameters and decides whether to connect on its own,
  and with which configuration. `url` must match the connection-string
  grammar: an optional `neo4j` or `bolt` scheme with one of the suffixes
  `""`, `+`, `+s`, `+sc`, `+ssc` and `://`, then a host over
  `[A-Za-z0-9_.]`, then an optional `:` and digits. Only the scheme name is
  kept, so the suffix is lost. A missing scheme becomes `neo4j` and a
  missing port becomes the number 7687.
- **The authentication lifecycle.** The provider holds `authenticating`,
  the shown configuration, the active driver, the last error, the selected
  database and the persisted configuration. `updateConnection` and the
  driver-verification effect move it between states, and the render shows
  a placeholder, the login form, or the connected children.

Modules:

- `Wrappers` (`wrappers.dfy`): `Option`.
- `Connection` (`connection.dfy`): `Port` and `Config`. They stand for
  `Neo4jConfig`. `src/neo4j-config.interface.ts` is not part of this model,
  so the scheme is a plain string.
- `UrlGrammar` (`url_grammar.dfy`) holds the grammar. `MatchUrl` is a
  hand-written matcher and `Spell` is its inverse. Soundness
  (`MatchUrl`'s contract) and completeness (`MatchUrlComplete`) together
  say that a string is accepted exactly when it spells a valid match, and
  that the match is unique.
- `Resolver` (`resolver.dfy`): the URL-parameter effect.
- `Lifecycle` (`lifecycle.dfy`): the state, its transitions, the view, the
  mounted state, and event runs with reference "last event" definitions.

Behaviour of the code that the model keeps, some of it easy to misread:

- The code accepts the suffixes `+` and `+sc` as well as `+s` and `+ssc`.
- A host is ASCII word characters and dots. JavaScript's `\w` is
  `[A-Za-z0-9_]`, and the regular expression has no `i` or `u` flag that
  could widen it.
- A failed connection request keeps any driver that was already active.
  The driver is not discarded. A connected provider therefore stays
  connected after a failed request (`ConnectedNeverShowsLogin`).
- A successful request does not clear an earlier error
  (`DriverAndErrorPersist`).
- `updateConnection` does not take the database from the submitted
  configuration. It sets the database to its current value.

## Model

| member | source | states |
|---|---|---|
| UrlGrammar.MatchUrl | src/neo4j.provider.tsx:120-122 | whatever the matcher accepts is a valid match (known scheme name and suffix, non-empty `[A-Za-z0-9_.]` host, non-empty digit port) whose spelling is exactly the input |
| UrlGrammar.MatchUrlComplete | src/neo4j.provider.tsx:121 | every valid match is recovered from its spelling, including the regex's backtracking to the scheme-less reading |
| UrlGrammar.AcceptedIffSpelled | src/neo4j.provider.tsx:120-124 | a `url` matches if and only if it is the spelling of some valid match |
| UrlGrammar.SpellingIsUnambiguous | src/neo4j.provider.tsx:121 | two valid matches with the same spelling are equal, so capture groups 2, 6 and 8 are determined by the string |
| UrlGrammar.MatchHostPort | src/neo4j.provider.tsx:121 | the host-and-port part splits its input into a non-empty host and an optional non-empty digit port that spell it back |
| UrlGrammar.MatchPrefix | src/neo4j.provider.tsx:121 | the prefix part yields a known scheme name and suffix that, with `://`, is a prefix of the input |
| UrlGrammar.MatchHostPortComplete | src/neo4j.provider.tsx:121 | every non-empty host with an optional digit port is read back as exactly that host and port |
| UrlGrammar.MatchPrefixComplete | src/neo4j.provider.tsx:121 | every accepted scheme name and suffix followed by `://` is read back as itself, whatever follows |
| UrlGrammar.SpanOfSplit | src/neo4j.provider.tsx:121 | the greedy host run stops exactly at the first character outside the class, so a host is never cut short |
| UrlGrammar.RejectsForeignCharacter | src/neo4j.provider.tsx:120-128 | a character other than `[A-Za-z0-9_.]`, `:`, `/`, `+` anywhere in `url` means no match |
| UrlGrammar.RejectsForeignScheme | src/neo4j.provider.tsx:120-128 | text before `://` that is not `neo4j` or `bolt` with an accepted suffix means no match |
| UrlGrammar.RejectsColonWithoutDigits | src/neo4j.provider.tsx:120-128 | a `url` ending in `:` (no port digits) means no match |
| UrlGrammar.SpellAlphabet | src/neo4j.provider.tsx:121 | an accepted `url` uses only host characters, `:`, `/`, `+`; `/` occurs only in the `://` after the scheme, `:` only there and before the port |
| UrlGrammar.PortSuffixIsPort | src/neo4j.provider.tsx:121 | in an accepted `url`, any `:` followed only by digits is the port separator and those digits are group 8 |
| UrlGrammar.PortIsPortSuffix | src/neo4j.provider.tsx:121 | a matched port is the digit string after the final `:` of the `url` |
| Resolver.Resolve | src/neo4j.provider.tsx:106-151 | with a supplied driver nothing is resolved; a resolved configuration needs a `url` parameter, and has scheme `neo4j` or `bolt`, a non-empty `[A-Za-z0-9_.]` host and a truthy port |
| Resolver.AttemptedIffMatched | src/neo4j.provider.tsx:107-131 | a connection is attempted iff no driver was supplied and `url` is present and matches; the guard at line 131 never rejects a matched URL |
| Resolver.MatchScheme | src/neo4j.provider.tsx:125 | the scheme is group 2 alone: for a valid match it is `neo4j` or `bolt`, the default `neo4j` without a prefix, and otherwise the prefix text with its suffix and `://` removed |
| Resolver.MatchPort | src/neo4j.provider.tsx:127 | the port is the digit string of group 8 when it is present, and the default 7687 exactly when the match has no port digits |
| Resolver.ResolveSpelled | src/neo4j.provider.tsx:124-144 | a `url` spelled from valid parts resolves to the scheme name (or `neo4j`), the host, the digits (or 7687), and the `user`/`pass`/`database` parameters |
| Resolver.SchemeSuffixDropped | src/neo4j.provider.tsx:121-125 | URLs differing only in the `+`, `+s`, `+sc`, `+ssc` suffix resolve to the same configuration |
| Resolver.ResolvedPort | src/neo4j.provider.tsx:121-127 | the port is 7687 iff `url` has no `:digits` ending; otherwise it is exactly the digits after that `:` |
| Resolver.CredentialsIndependentOfUrl | src/neo4j.provider.tsx:133-143 | username, password and database do not depend on `url`, and an empty or missing parameter becomes absent |
| Resolver.BoltUrlWithPortExample | src/neo4j.provider.tsx:117-144 | `url=bolt://myhost:7688&user=a&pass=b&database=d` resolves to bolt, myhost, "7688", a, b, d |
| Resolver.BareHostExample | src/neo4j.provider.tsx:117-144 | `url=myhost` resolves to neo4j, myhost, 7687 with no credentials |
| Resolver.SecureSchemeExample | src/neo4j.provider.tsx:121-127 | `url=neo4j+s://db.io:443` resolves to scheme `neo4j`: the `+s` is lost |
| Resolver.ForeignSchemeExample | src/neo4j.provider.tsx:120-131 | `url=http://myhost:7687` resolves to nothing, and this is not an error |
| Lifecycle.Initial | src/neo4j.provider.tsx:48-59 | a new provider starts authenticating, so it first shows the placeholder; it shows the persisted configuration and holds the caller's driver and database and no error |
| Lifecycle.ViewOf | src/neo4j.provider.tsx:154-189 | placeholder iff authenticating; otherwise login form (with the error and shown configuration) iff there is no driver; otherwise connected (with driver, configuration, database) |
| Lifecycle.BeginUpdate | src/neo4j.provider.tsx:61-72 | a request shows the placeholder and takes the submitted configuration at once; the database, driver, error and storage do not change |
| Lifecycle.FinishUpdate | src/neo4j.provider.tsx:74-85 | success installs the new driver and persists exactly the submitted configuration; failure records the error and keeps driver and storage; both stop authenticating; the view is connected, or the login form with the error, or still connected when a driver was already active |
| Lifecycle.FinishSupplied | src/neo4j.provider.tsx:88-98 | a supplied driver becomes active and the view connected whatever the verification outcome; a failure is only recorded |
| Lifecycle.SettleWithoutDriver | src/neo4j.provider.tsx:99-102 | without a supplied driver the effect only stops authenticating |
| Lifecycle.SetDatabase | src/neo4j.provider.tsx:185 | the setter changes only the selected database: authenticating, configuration, driver, error and storage stay as they were, and a connected view then shows the new database |
| Lifecycle.Mount | src/neo4j.provider.tsx:48-151 | after mounting, the provider is authenticating iff a driver was supplied or the query resolves; with a supplied driver the persisted configuration stays shown, otherwise a resolved configuration replaces it |
| Lifecycle.MountIgnoresQueryWithDriver | src/neo4j.provider.tsx:106-109 | with a supplied driver the mounted state does not depend on the query at all |
| Lifecycle.MountView | src/neo4j.provider.tsx:88-151 | without a supplied driver, an unresolved query shows the login form with the persisted configuration and a resolved one shows the placeholder |
| Lifecycle.StoredIsLastVerified | src/neo4j.provider.tsx:74-85 | the persisted configuration is that of the last successful request, or the initial one; failed requests never touch it |
| Lifecycle.DriverIsLastInstalled | src/neo4j.provider.tsx:74-98 | the active driver is that of the last successful request or settled supplied driver, or the initial one |
| Lifecycle.DatabaseIsLastSelected | src/neo4j.provider.tsx:61-64 | the database changes only through the setter, never through a connection request |
| Lifecycle.DriverAndErrorPersist | src/neo4j.provider.tsx:74-98 | no event removes the driver or clears a recorded error |
| Lifecycle.ConnectedNeverShowsLogin | src/neo4j.provider.tsx:154-189 | once connected, the login form is never shown again |

## Left out

- React hooks, JSX and the props spread into `Login`: the spread can
  override the pre-filled fields, and the view only carries the
  configuration held in state.
- `localStorage` and JSON (de)serialisation. Storage is an abstract
  `Option<Config>` that is always available. A missing `localStorage`
  (the `window?.localStorage` guards) is not modelled, and neither is a
  stored value that fails to parse.
- The driver library (`createDriver`, `verifyConnectivity`): a handle is
  opaque and the verification outcome is an input. An exception thrown by
  the success callback itself, which the `catch` would also record, is
  not modelled.
- `getWindow` and `URLSearchParams`: the query is a map from names to
  already-decoded values, with `None` for a page without a location.
  Repeated parameters, where `get` returns the first, are not modelled.
  Decoding matters for the suffixes: form decoding turns an unencoded `+`
  into a space. A `url=neo4j+s://…` written without `%2B` therefore
  reaches the grammar as `neo4j s://…` and is rejected. The model starts
  from the decoded value.
- Promise interleaving: completions are sequential events, so a stale
  verification is just an event that comes later. React's scheduling is
  not modelled either. The driver effect re-runs when the driver changes,
  but here the caller chooses the event order. The same holds for the
  stale `database` an old `updateConnection` closure may hold.
- `src/components/login.tsx`: the choice between the desktop and the
  plain login form is one boolean test on an ambient object plus markup.
- General regular-expression semantics: only this one grammar is coded.

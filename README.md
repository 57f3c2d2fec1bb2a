# Github-Card: response cache and card rendering, modelled in Dafny

Github-Card renders GitHub repositories and gists as themed SVG cards. This
project models two parts of `index.js`:

- **The response cache behind `get(url)`.** `get` reads a URL-keyed map of
  `{time, data}` entries from a cache file. An entry less than
  `CACHE_TIMEOUT` (one hour, in milliseconds) away from the current time,
  in the past or in the future, is served as stored. Otherwise `get` asks
  the upstream. A response that is not ok is thrown, carrying its status
  and status text, and the cache is left untouched. An ok response is
  stored under `url` with the current time, the whole map is written back,
  and the body is returned.
- **The rendering decisions of the two card functions.** The caller's
  theme is laid over the default theme. Each placeholder gets a value, with
  JavaScript `||` fallbacks: `"No description"`, `"Unknown"`, `"#ffffff"`,
  the gist's first file name, and `"No content available"`. The template is
  then filled by a chain of `String.prototype.replace` calls with string
  patterns. Each call replaces only the *first* occurrence, and expands
  `$$`, `$&`, `` $` `` and `$'` in the inserted text (ECMA-262, section
  22.1.3.19.1, GetSubstitution).

Modules:

- `Wrappers` (`wrappers.dfy`): `Option` for nullable JSON values, and
  `Result` for a value or a thrown error.
- `JsString` (`jsstring.dfy`): `indexOf`, first-occurrence `replace`,
  replacement chains, and the decimal text of a number.
- `ResponseCache` (`cache.dfy`): the pure function `GetEffect` describes one
  call of `get`. The class `CacheFile` holds the file's map in the field
  `stored`. Its method `Get` updates that field, and ghost counters record
  upstream requests and file rewrites. `Get` is proved equal to `GetEffect`,
  and the lemmas prove the cache's properties about `GetEffect`.
- `Cards` (`cards.dfy`): theme merge, fallbacks, and the repository and gist
  cards.

The clock and the network are parameters. `now` stands for `Date.now()`.
`upstream: string -> Response<P>` is how the upstream answers each URL:
`Ok(payload)` or `NotOk(status, statusText)`. A missing cache file is the
empty map.

## Model

| member | source | states |
|---|---|---|
| `ResponseCache.Abs` | index.js:18 | `Math.abs`: the result is `x` or `-x` and never negative |
| `ResponseCache.FreshData` | index.js:18 | an entry is served exactly when it exists and `now - CACHE_TIMEOUT < time < now + CACHE_TIMEOUT`, and then its stored data is what comes back |
| `ResponseCache.Message` | index.js:24 | the error text is `Failed to fetch `, the URL, `: `, the status's decimal text (`DecimalString`, which reads back as the status), a space and the status text, each at its fixed position |
| `ResponseCache.GetEffect` | index.js:10-33 | no contract of its own: the model of one call of `get` (hit, failed refresh, successful refresh with write-back), whose behaviour the lemmas below state and which `CacheFile.Get` is proved equal to |
| `ResponseCache.HitServesStoredData` | index.js:18-20 | a fresh entry is returned as stored, with no upstream request, no write and the map unchanged |
| `ResponseCache.FreshnessWindow` | index.js:18 | the window is strict and symmetric: an entry exactly `CACHE_TIMEOUT` old, or `CACHE_TIMEOUT` or more in the future, is stale; anything closer on either side is fresh |
| `ResponseCache.MissStoresResponse` | index.js:22-32 | on a miss or stale entry with an ok answer: one request, one write, the body returned, the new map is `old[url := {time: now, data}]` and every other key keeps its exact entry |
| `ResponseCache.FailureLeavesCache` | index.js:22-25 | on a miss with an answer that is not ok: one request, no write, the map unchanged, and the error carries URL, status and status text |
| `ResponseCache.FetchesExactlyOnMiss` | index.js:18-32 | zero requests exactly on a hit and exactly one otherwise; never more writes than requests; no write means no change to the map |
| `ResponseCache.RefreshedEntryServesWindow` | index.js:18-30 | after a refresh at `now`, every call within the window returns the same data with no request and no write, whatever the upstream would answer |
| `ResponseCache.Idempotent` | index.js:18-30 | after a successful call, a second call at the same time is a hit that returns the same data and changes nothing |
| `ResponseCache.RetryAfterFailureFetchesAgain` | index.js:18-25 | after a failed call nothing is cached, so a retry whose upstream now succeeds is still a miss and asks the upstream again |
| `ResponseCache.StalenessScenario` | index.js:5-32 | the payload is fetched and stored at t = 0, served from the cache at t = 1000, and fetched and stored again at t = 3700000 |
| `ResponseCache.CacheFile.Missing` | index.js:13-14 | a missing cache file reads as the empty map |
| `ResponseCache.CacheFile.Existing` | index.js:14-16 | an existing cache file reads as its stored map |
| `ResponseCache.CacheFile.Get` | index.js:10-33 | the returned outcome, the new stored map and the increments of the request and write counters are exactly those of `GetEffect` on the old map |
| `ResponseCache.RepeatedRequest` | index.js:10-33 | on a fresh cache file, requests at t = 0, 1000 and 3700000 all return the payload; inside, the class's counters show one request and one write for the first two, and one more of each for the third |
| `JsString.IndexFrom` | index.js:61-74 | an index found from `from` is an occurrence with no occurrence between `from` and it; none found means no occurrence from `from` on |
| `JsString.IndexOf` | index.js:61-74 | the result is the leftmost occurrence of the pattern, or there is no occurrence at all |
| `JsString.Substitution` | index.js:61-74 | no contract of its own: the expansion of the replacement text (`$$`, `$&`, `` $` ``, `$'`; any other `$` kept) that every `.replace` call of index.js:61-74 and index.js:96-106 applies; `SubstitutionOfPlainText` states what it does to text without `$` |
| `JsString.SubstitutionOfPlainText` | index.js:61-74 | a replacement text without `$` is inserted verbatim |
| `JsString.ReplaceFirst` | index.js:61-74 | with no occurrence the string is unchanged; otherwise the leftmost occurrence is replaced by the expanded replacement, with the text before and after it kept |
| `JsString.ReplaceFirstKeepsTheRest` | index.js:61-74 | only the first occurrence is replaced: the prefix and suffix are identical, the length changes by the difference, and every later occurrence that starts after the replaced one ends is still present, shifted |
| `JsString.ReplaceChain` | index.js:61-74 | a chain of replacements leaves a string with none of its patterns unchanged |
| `JsString.ReplaceChainFillsSlots` | index.js:61-74 | with non-empty patterns that start with `{`, a template holding each pattern once, in chain order, between texts without `{`, with values free of `{` and `$`, becomes those texts around the values |
| `JsString.DecimalString` | index.js:24 | a number prints as a non-empty string of decimal digits without a leading zero |
| `JsString.DecimalRoundTrip` | index.js:24 | the printed digits read back as the number |
| `Cards.MergeTheme` | index.js:54 | the merged keys are both key sets; a caller's key takes the caller's value; every other key keeps its default |
| `Cards.MergedThemeIsComplete` | index.js:45-54 | every default colour is present after the merge; an empty caller theme gives the default theme |
| `Cards.ThemeColors` | index.js:54-65 | each colour a template uses is the caller's when the caller gives it and the default otherwise |
| `Cards.Truthy` | index.js:69-71 | no contract of its own: JavaScript truthiness of a nullable string (null and the empty string are falsy), used by the fallbacks of index.js:69-71 and index.js:105-106 |
| `Cards.OrElse` | index.js:69-70 | the logical-or fallback on a nullable string: the value when it is neither null nor empty, else the fallback |
| `Cards.LanguageColor` | index.js:71 | the table's colour for a truthy language that has a truthy colour entry; `#ffffff` when the language is absent or empty, missing from the table, or has no colour |
| `Cards.RepoValues` | index.js:61-74 | thirteen values in chain order: the four theme colours (caller's or default), the URL, owner login and name, the description and language with their `OrElse` fallbacks, the `LanguageColor`, then the formatted stars, forks and update date |
| `Cards.RepoCard` | index.js:61-76 | a template without any repository placeholder is returned unchanged |
| `Cards.RepoCardFillsSlots` | index.js:61-74 | a repository template holding each placeholder once, in order, renders as its literal texts around the chosen values |
| `Cards.GistName` | index.js:105 | a truthy description is the name without looking at the files; otherwise the first file's name, or a TypeError reading `filename` when there is no file |
| `Cards.GistContent` | index.js:106 | the first file's content, or `No content available` when it is null or empty; a TypeError reading `content` when there is no file |
| `Cards.GistValues` | index.js:90-106 | fails exactly when the owner is missing or there is no file, with the TypeError of the first missing property; otherwise the six theme colours, the URL, the owner login, the name and the content in chain order |
| `Cards.GistCard` | index.js:96-108 | the card fails exactly when the owner is missing or there is no file; a template without any gist placeholder is returned unchanged |
| `Cards.GistCardFillsSlots` | index.js:96-106 | a gist with an owner and a file, on a template holding each placeholder once, in order, renders as its literal texts around the chosen values |

## Left out

- Network transport errors and `resp.json()` decoding failures (index.js:22, index.js:27) are not modelled. Both propagate before any write. The upstream is modelled only as ok or not ok.
- Reading and writing the cache file (index.js:14-15, index.js:30) and JSON text serialisation are not modelled. The file is the `stored` map itself. A JSON round trip that changes a payload, or numbers beyond 2^53, is not captured. The unguarded `JSON.parse` failure on a malformed file (index.js:15) is not modelled.
- `Date.now()` (index.js:11) is the parameter `now`.
- `formatNumber` and `formatDate` (index.js:35-41) are locale and library calls. The card functions take their already formatted output as parameters.
- The SVG template files (index.js:7-8, index.js:59, index.js:94) are not part of this model. The template is a parameter.
- The `get` calls inside `generateRepoCard` and `generateGistCard` (index.js:56-57, index.js:92), and the decoding of their JSON into `Repo`, `Gist` and `ColorTable` records, are not modelled. The card functions take the decoded records.
- Concurrent `get` calls are not modelled. They race on the file with no synchronisation, so there is nothing to verify.
- JavaScript object quirks are not modelled: an entry that is not an object, keys such as `__proto__`, and theme or record fields that are not strings.
- A repository owner is always present in the model. Only the gist's owner may be missing.
- Gist files are a sequence given in `Object.keys` enumeration order. The rule that puts integer-like names first is not modelled.
- String positions count Unicode characters, while JavaScript's `indexOf` counts UTF-16 code units, and lone surrogates cannot be represented. For the ASCII placeholders the occurrence found and the result are the same, though the index differs after characters outside the Basic Multilingual Plane.
- RepoCardFillsSlots: proved only for a template with each placeholder once, in chain order, whose literal text and values contain no `{` (and values no `$`). Real templates with CSS braces, and values that themselves contain a later placeholder, fall outside the proved case. `ReplaceFirst` still describes them exactly.
- GistCardFillsSlots: the same restriction as RepoCardFillsSlots.

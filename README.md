# domain-scan: subdomain classification and accessibility cache, in Dafny

This project models two scanners of domain-scan.

**The `subdomains` scanner** decides whether a candidate subdomain is a real public website. It works as a short-circuiting chain of checks:

- manual exclusion;
- the name is its own base domain once a leading `www` and one more character are removed;
- no inspection record;
- not up;
- every endpoint has status 0;
- a wildcard DNS match with a status that is not 2xx.

Along the way it does three more things:

- It resolves a canonical endpoint through a fixed fallback order.
- It classifies the endpoint's redirect as external, to a sibling subdomain, or neither.
- It probes the network through `network_check`. This is a read-through cache keyed by subdomain. It holds one `curl` fetch and up to two `dig` lookups (the wildcard form of the name, then the name itself).

Finally it emits at most one six-field row.

**The `a11y` scanner** does three things:

- It picks the domain to scan: the redirect target if the inspection reports a redirect.
- It takes pa11y's `'error'` results, from the cache unless `force` is set.
- It yields one row per error.

Modules, one per concern:

- `Wrappers`: `Option` and Python truthiness of optional strings.
- `Labels`: `split`/`join` on a separator, the `^www.` strip, `base_domain_for`, `subdomains_for`, `wildcard_for`.
- `LineSort`: Python string order and `list.sort()`.
- `StatusText`: `str(status).startswith('2')`.
- `Probe`: `network_check` as the class `ProbeCache`. Its cache map and its log of commands run are fields.
- `Subdomains`: `scan`. The functions `Gate` and `Finish` specify it; the method `Scan` runs it step by step.
- `A11y`: the accessibility scanner, with the class `A11yCache`.

External commands and library code are function-valued parameters (oracles):

- `curl` and `dig` (`Probe.Network`);
- `urlparse(...).hostname` and SHA-256 (`Subdomains.Library`);
- pa11y.

`None` stands for a failed command.

Where the documented behaviour and the code differ, the model follows the code:

- A redirect from `a.agency.gov` to `www.agency.gov` is documented as neither external nor sibling. The code strips the target to `agency.gov`. That has the same base domain as `a.agency.gov` but is a different name, so the code reports a sibling redirect (`RedirectToWwwOfBase`).
- The code strips `www.` only from the redirect host (subdomains.py:148), not from the original name (subdomains.py:154). This matters when the original name starts with `www.`: `www.x.agency.gov` redirecting to `x.agency.gov` is a sibling redirect, although stripping both names would make them equal (`WwwNameToBareName`).
- The design speaks of dropping a `www.` label, but the dot in `^www.` is not escaped (subdomains.py:85, 148). Any character but a newline after `www` is removed, so `wwwx.gov` passes the second-level test (`WwwLikeSecondLevelPassesCheck`), and a redirect to the other domain `www-agency.gov` counts as a sibling redirect (`RedirectToLookalikeDomain`).
- The name itself is documented as looked up only when the wildcard lookup returned at least one answer. The code skips that lookup only when the wildcard output is exactly `""` (subdomains.py:236). A failed `dig` (`None`) still leads to the second lookup (`SelfLookupOnlyAfterWildcardOutput`).
- The documentation says "both answer sets present and equal". The code also needs the wildcard list to be non-empty (subdomains.py:262). A split list is never empty, so the two agree (`MatchedIffSameLines`).

## Model

| member | source | states |
|---|---|---|
| `Labels.StripWww` | scanners/subdomains.py:148 | `re.sub("^www.", "", s)` removes a prefix of exactly four characters or nothing, so the result is a suffix of `s`; `StripWwwAnyFourthCharacter` says which prefixes go |
| `Labels.BaseDomainFor` | scanners/subdomains.py:75 | the last two labels, joined with dots; `BaseDomainLabels` and `ShortNameIsOwnBase` state it |
| `Labels.SubdomainsFor` | scanners/subdomains.py:204-205 | all labels but the last two, joined with dots; `SubdomainsThenBase` and `ShortNameIsOwnBase` state it |
| `Labels.WildcardFor` | scanners/subdomains.py:277-278 | `*.` followed by the name without its first label; `WildcardReplacesFirstLabel` and `WildcardOfSingleLabel` state it |
| `Labels.JoinSplit` | scanners/subdomains.py:204-205 | joining the parts of `split(sep)` with `sep` gives the string back |
| `Labels.SubdomainsThenBase` | scanners/subdomains.py:203-205 | for a name of three or more labels, `subdomains_for(s) + "." + base_domain_for(s) == s` |
| `Labels.ShortNameIsOwnBase` | scanners/subdomains.py:204-205 | a name of at most two labels is its own base domain and `subdomains_for` gives `""` |
| `Labels.BaseDomainLabels` | scanners/subdomains.py:75 | the base domain consists of exactly the last two labels of the name |
| `Labels.WildcardReplacesFirstLabel` | scanners/subdomains.py:275-278 | `wildcard_for(first + "." + rest) == "*." + rest` when `first` has no dot |
| `Labels.WildcardOfSingleLabel` | scanners/subdomains.py:277-278 | a name without a dot has wildcard form `"*."` |
| `Labels.ThreeLabels` | scanners/subdomains.py:204-205 | `a.b.c` splits into `[a, b, c]`, has base `b.c`, subdomain part `a` and wildcard `*.b.c` |
| `Labels.WildcardExample` | scanners/subdomains.py:275-278 | `abc.mountains.gov` has wildcard form `*.mountains.gov`, subdomain part `abc` and base `mountains.gov` |
| `Labels.StripWwwAnyFourthCharacter` | scanners/subdomains.py:85 | the unescaped `^www.` removes `www` followed by any character except a newline |
| `LineSort.Sort` | scanners/subdomains.py:244-245 | the sorted list holds the same lines (as a multiset) as the input |
| `LineSort.SortIsSorted` | scanners/subdomains.py:244-252 | the sorted list is ordered by Python string comparison |
| `LineSort.SortedUnique` | scanners/subdomains.py:262 | two ordered lists with the same lines are equal |
| `LineSort.SortIgnoresOrder` | scanners/subdomains.py:243-253 | two lists sort to the same list iff they hold the same lines |
| `StatusText.ThreeDigitTwoHundreds` | scanners/subdomains.py:179 | on codes 100 to 999, the "starts with '2'" test holds iff the code is 200 to 299 |
| `StatusText.TwoHundredsQuirks` | scanners/subdomains.py:179 | `None` and negative statuses fail the 2xx test; 2, 20 and 2000 pass it |
| `Probe.ParseAnswers` | scanners/subdomains.py:243-253 | a list is stored iff the output is truthy; it is sorted and holds the output's lines |
| `Probe.ProbeCycle` | scanners/subdomains.py:218-265 | the entry one fetch cycle produces; `ProbeWellFormed`, `MatchedIffSameLines`, `EmptyWildcardSkipsSelfLookup` and `SelfLookupOnlyAfterWildcardOutput` state it |
| `Probe.ProbeWellFormed` | scanners/subdomains.py:243-265 | a fresh entry has sorted lists and `matched_wild` iff the wildcard list is non-empty and equals the self list |
| `Probe.MatchedIffSameLines` | scanners/subdomains.py:262-265 | `matched_wild` holds iff both lookups printed something and printed the same lines in any order |
| `Probe.EmptyWildcardSkipsSelfLookup` | scanners/subdomains.py:236-238 | an empty wildcard answer runs only the fetch and the wildcard lookup, stores no lists and never matches |
| `Probe.SelfLookupOnlyAfterWildcardOutput` | scanners/subdomains.py:224-241 | the cycle fetches, then looks up the wildcard, and looks up the name itself iff the wildcard output was not `""` |
| `Probe.ProbeCache.NetworkCheck` | scanners/subdomains.py:208-269 | without `force` a cached entry is returned and nothing runs; otherwise one cycle runs and its entry overwrites the cache; the response, hit or miss, has sorted lists and a consistent `matched_wild` |
| `Probe.CheckTwice` | scanners/subdomains.py:213-216 | two unforced checks return the same entry, the cached one or else a fresh cycle's; the cache gains that entry only on a miss, and exactly one fetch cycle runs then and none otherwise |
| `Subdomains.FirstLive` | scanners/subdomains.py:104-123 | the position chosen follows only status-0 entries, and is not status 0 unless it is the last entry |
| `Subdomains.ResolveEndpoint` | scanners/subdomains.py:99-123 | the step-by-step reassignment picks the first entry of the fixed fallback order whose status is not 0 |
| `Subdomains.ResolveIsFirstLive` | scanners/subdomains.py:104-123 | the chain of four `status == 0` fallbacks equals the first live entry of the fallback order |
| `Subdomains.LiveCanonicalKept` | scanners/subdomains.py:100-102 | a live canonical endpoint is `endpoints[canonical_protocol]["root"]`, with prefix `canonical_endpoint` |
| `Subdomains.MissingStatusKeepsCanonical` | scanners/subdomains.py:104 | a missing status is not 0, so there is no fallback |
| `Subdomains.OnlyHttpsWwwLive` | scanners/subdomains.py:104-123 | when only `https`/`www` answers, the choice is protocol `https`, prefix `www` |
| `Subdomains.AllDownSkipped` | scanners/subdomains.py:119-136 | if every entry has status 0, the choice is `http`/`root` and the name is skipped |
| `Subdomains.EndpointUrl` | scanners/subdomains.py:164 | the URL of the chosen endpoint; `EndpointUrlParts` states it |
| `Subdomains.EndpointUrlParts` | scanners/subdomains.py:164 | the URL is `protocol://`, then the subdomain, with `www.` in front unless the prefix is `root` |
| `Subdomains.ClassifyRedirect` | scanners/subdomains.py:144-158 | no redirect gives both flags false; a `None` hostname raises; the two flags are never both true |
| `Subdomains.RedirectToSelfIsNeither` | scanners/subdomains.py:147-155 | a redirect whose host, after the `^www.` strip, equals the name as given (not stripped) sets neither flag |
| `Subdomains.RedirectWithinBase` | scanners/subdomains.py:151-155 | within the same base domain: never external, and a sibling redirect iff the stripped host differs from the name |
| `Subdomains.RedirectOutsideBase` | scanners/subdomains.py:151-155 | a stripped redirect host whose base domain differs from the name's is external and not a sibling redirect |
| `Subdomains.RedirectToWwwAnyOfBase` | scanners/subdomains.py:147-155 | `a.mid.tld` redirecting to `www`, any non-newline character, then `mid.tld` is a sibling redirect, not external |
| `Subdomains.RedirectToWwwOfBaseAny` | scanners/subdomains.py:147-155 | `a.mid.tld` redirecting to `www.mid.tld` is a sibling redirect, not external |
| `Subdomains.RedirectToLookalikeDomain` | scanners/subdomains.py:148-155 | `a.mid.tld` redirecting to the other domain `www-mid.tld` is a sibling redirect, not external, because the unescaped dot strips `www-` |
| `Subdomains.RedirectToWwwDashOfSelf` | scanners/subdomains.py:148-155 | a redirect to `www-` followed by the name itself sets neither flag, because the unescaped dot strips `www-` |
| `Subdomains.RedirectToWwwOfBase` | scanners/subdomains.py:147-155 | `a.agency.gov` redirecting to `www.agency.gov` is a sibling redirect, not external |
| `Subdomains.WwwNameToBareName` | scanners/subdomains.py:148-155 | `www.x.mid.tld` redirecting to `x.mid.tld` is a sibling redirect, because only the redirect host is stripped |
| `Subdomains.WwwNameRedirectToItself` | scanners/subdomains.py:148-155 | a `www.x.mid.tld` name redirecting to itself (an http-to-https upgrade, say) is a sibling redirect, because only the target loses its `www.` |
| `Subdomains.RedirectToSibling` | scanners/subdomains.py:147-155 | `a.x.y` redirecting to `b.x.y` (a different first label), when the `^www.` strip leaves `b.x.y` unchanged, is a sibling redirect, not external |
| `Subdomains.RedirectToOtherDomain` | scanners/subdomains.py:147-155 | like `a.agency.gov` to `other.com`: a three-label name redirecting to a two-label host under another base domain, when the `^www.` strip leaves that host unchanged, is external, not a sibling redirect |
| `Subdomains.Cells` | scanners/subdomains.py:183-200 | a row has one cell per header, in header order: metadata, external flag, sibling flag, status, wildcard match, hash |
| `Subdomains.ContentHash` | scanners/subdomains.py:168-175 | falsy content has no hash |
| `Subdomains.Gate` | scanners/subdomains.py:75-164 | everything `scan` decides before the probe; `CheapChecksSkip`, the second-level lemmas, `AllDownSkipped` and the redirect lemmas state it |
| `Subdomains.Finish` | scanners/subdomains.py:166-200 | what `scan` yields after the probe; `WildcardNoiseYieldsNothing` and `OtherwiseOneRow` state it |
| `Subdomains.CheapChecksSkip` | scanners/subdomains.py:80-97 | exclusion, the second-level test, a missing inspection or `up` false each skip before the probe; exclusion wins whatever the inspection |
| `Subdomains.SecondLevelSkipped` | scanners/subdomains.py:84-87 | a name of at most two labels that the `^www.` strip leaves alone is skipped |
| `Subdomains.WwwOfSecondLevelSkipped` | scanners/subdomains.py:84-87 | `www.` followed by a two-label name is skipped |
| `Subdomains.WwwLikeSecondLevelPassesCheck` | scanners/subdomains.py:85 | a two-label name like `wwwx.gov` is not caught by the second-level test |
| `Subdomains.WildcardNoiseYieldsNothing` | scanners/subdomains.py:177-181 | a wildcard match with a status that fails the 2xx test yields no row: a skip when there is a status, an exception from `"%i" % None` when there is none |
| `Subdomains.OtherwiseOneRow` | scanners/subdomains.py:183-190 | otherwise exactly one row: metadata, both flags, status, match and hash |
| `Subdomains.EndToEndRow` | scanners/subdomains.py:72-190 | `apps.agency.gov` with `https`/`root` status 200, no redirect and an empty wildcard answer yields one row: flags false, status 200, no match |
| `Subdomains.EndToEndWildcardNoise` | scanners/subdomains.py:177-181 | a wildcard match with status 404 yields no row |
| `Subdomains.Scan` | scanners/subdomains.py:72-190 | `scan` agrees with `Gate`, then `Finish`: a gate stop leaves the cache and the network log unchanged; past the gate the probe behaves as `NetworkCheck` |
| `A11y.DomainToScan` | scanners/a11y.py:24-31 | the redirect target when `redirect` is set, the domain otherwise |
| `A11y.Errors` | scanners/a11y.py:56-61 | the `'error'` results in order; `ErrorsAreTheErrorResults` and `ErrorsAppend` state it |
| `A11y.ErrorsFromResults` | scanners/a11y.py:56-61 | the loop returns the `'error'` filter of the results |
| `A11y.ErrorsAreTheErrorResults` | scanners/a11y.py:56-61 | a result is kept iff it is an input result of type `'error'`; no more results out than in |
| `A11y.ErrorsAppend` | scanners/a11y.py:56-61 | the filter distributes over concatenation, so input order is kept |
| `A11y.ErrorsIdempotent` | scanners/a11y.py:50-53 | filtering stored errors again changes nothing |
| `A11y.FromEntry` | scanners/a11y.py:72-82 | an invalid entry reads as `[]`; a stored one reads as errors only |
| `A11y.ReadBackIsRunResult` | scanners/a11y.py:42-54 | reading back the entry a pa11y run wrote gives what that run returned |
| `A11y.A11yCache.Pa11yScan` | scanners/a11y.py:42-54 | empty output stores the invalid marker and returns `[]`; otherwise stores and returns the errors; one run is logged |
| `A11y.A11yCache.ErrorsFromScanOrCache` | scanners/a11y.py:63-86 | the cache is read iff the entry exists and `force` is off; otherwise pa11y runs and the cache is overwritten |
| `A11y.ProjectRows` | scanners/a11y.py:96-105 | one row per error, in order, each headed by the scanned domain |
| `A11y.Scan` | scanners/a11y.py:89-105 | the rows are the projection of the cached or freshly scanned errors of the domain to scan |
| `A11y.ScanTwice` | scanners/a11y.py:63-86 | two unforced scans yield the same rows, projected from the cached errors or else a fresh run's; pa11y runs once on a miss and not at all on a hit, and only a miss changes the cache |

## Left out

- `init`, CSV loading (`utils.load_domains`) and the module globals `exclude_list`, `parents_list` and `domain_map` are file I/O. The exclusion set and the owner map are given as `Subdomains.Tables`.
- `utils.base_domain_for` is not among the modelled source files. Here it is fixed as the last two dot-separated labels (all labels when there are fewer). The lemmas that compute a base domain hold only for that definition: `SecondLevelSkipped`, `WwwOfSecondLevelSkipped`, `WwwLikeSecondLevelPassesCheck`, the redirect examples and `EndToEndRow`.
- The `curl`, `dig` and pa11y subprocesses, `utils.scan`, `utils.unsafe_execute` and shell quoting are external processes. They are modelled as oracle functions. An oracle gives the same answer for the same name every time, so answers that change between calls are not modelled.
- `urllib.parse.urlparse(...).hostname` is library code. It is an oracle, and `None` covers both a missing hostname and an exception inside `urlparse`; either ends `scan` with an exception.
- `hashlib.sha256` and UTF-8 encoding are a foreign library. The digest is an oracle; `None` stands for an encoding failure.
- JSON (de)serialisation, `os.path.exists`, `utils.cache_path`, `utils.write` and logging are plumbing. Each cache is an in-memory map. A JSON round trip is taken to return the stored value.
- Probe.ProbeCache.constructor: the probe cache starts empty. Entries left by earlier runs are not modelled; the invariant says every entry was written by this code.
- `get_from_inspect_cache` reads a file. The a11y inspect record is a parameter.
- A11y.Scan: requires a `redirect_to` whenever `redirect` is set. Otherwise the source passes `None` on to `utils.cache_path`, which is not part of this model.
- Key errors are not modelled: an inspection always has all four endpoints, `canonical_protocol` is `http` or `https`, and a pa11y result always has the fields `type`, `typeCode`, `code`, `message`, `context` and `selector`.
- `options.get("force", False) is False` is modelled as a boolean. A non-boolean `force` value is not modelled.
- Concurrency, atomic cache writes and the CSV writer are not modelled.

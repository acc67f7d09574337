# DistroWatch scraper: the text and sequence processing, modelled in Dafny

The system collects data about Linux distributions from DistroWatch. This project models the parts of it that turn fetched text into records:

- **The production scraper** (`DistroWatchCloudScraper`). It reads the popularity page's distribution anchors and keeps the first anchor per name. It puts the site root before an `href` that does not start with `http` and takes the rank from the row's first cell, or from the entry's position. `scrape_distro_details` folds a detail page's Info table into a dictionary, and `scrape_all` cuts the list to a limit.
- **The local scraper** (`test_scraping_local.py`). On a saved ranking page it reads the `th.phr1` rank cells with `int()`. It extracts each distribution's slug with `distrowatch\.com/([a-z0-9_-]+)$` and stops once `limit` entries are gathered. On a saved detail page it reads the first category item and the first release-date header (reformatting `%Y-%m-%d` to `%d/%m/%Y`). It also reads the first `4 semanas: <rank> (<hits>)` popularity line, with its hits fallback. Its `main` joins the ranking and the details into a results record.
- **The proxy tester** (`test_proxies_distrowatch.py`). It loads the http, socks5 and socks4 lists, stripping lines and dropping blanks and `#` comments. It runs the CloudScraper check and the Playwright check with their error labels, and tallies working and failed proxies.
- **The scraping routes** (`api/scraping/routes.py`). These are the status and paginated data views over the cached snapshot, the snapshot a scraping run writes, and the cache reset.

Python's string operations appear as functions on `seq<char>`: `strip`, `split`, `join`, `lower`, `replace`, `isdigit`, `int()`, `str()`, slicing, and the two regular expressions. The network, files, the HTML parser and the browser are not modelled. What they hand over arrives as parameters: anchors, cells, text nodes, responses, and a browser given as a function from its proxy setting to what navigation gives.

Files:

- `wrappers.dfy`: Option and Result.
- `text.dfy`: the Python string operations.
- `sequences.dfy`: first-match search, Python slices, and the map-and-concatenate and read-until-stop patterns the loops share.
- `pattern.dfy`: regex character classes and greedy runs.
- `popularity.dfy`: the `4 semanas` pattern and the hits figure.
- `iso_date.dfy`: `strptime`/`strftime`.
- `cloud_scraper.dfy`
- `local_scraping.dfy`
- `proxies.dfy`
- `routes.dfy`

## Model

| member | source | states |
|---|---|---|
| Text.NatToStringRoundTrip | api/scraping/distrowatch_cloudscraper.py:104 | the decimal text `str(n)` writes for a position reads back as that number |
| Text.ParseIntRoundTrip | test_scraping_local.py:29 | `int(str(i)) == i` for every integer, negative ones included |
| Text.ParseIntAccepts | test_scraping_local.py:29 | `int()` succeeds iff the stripped text is digits with an optional sign, and reads plain digits as their decimal value |
| Text.StripSlice | test_proxies_distrowatch.py:33-36 | `strip()` gives a slice of the text and removes only whitespace, only at the two ends |
| Text.RemoveChar | api/scraping/distrowatch_cloudscraper.py:148 | `replace(c, '')` leaves no `c`, adds no character and never lengthens the text |
| Text.JoinSplitRoundTrip | test_proxies_distrowatch.py:33 | joining the pieces of `split(c)` with `c` gives the text back |
| Text.SplitOnCount | test_proxies_distrowatch.py:108-110 | `split(':')` yields one piece more than the text has colons |
| Sequences.FindFirst | test_scraping_local.py:85-91 | the first-match loop stops at the first element satisfying the test, and no element before it does |
| Sequences.PyPrefix | api/scraping/distrowatch_cloudscraper.py:179 | `s[:stop]` is a prefix of length `min(stop, n)`, or `max(0, n + stop)` for a negative stop |
| Sequences.PySlice | api/scraping/routes.py:59 | `s[start:stop]` holds the elements between the resolved bounds and is empty when they cross |
| Pattern.RunEnd | test_scraping_local.py:42 | a greedy `+`/`*` run ends at the first character outside the class, and every character before it is inside |
| CloudScraper.DetailLinks | api/scraping/distrowatch_cloudscraper.py:67 | the anchors kept are exactly those whose `href` exists and contains `table.php?distribution=` |
| CloudScraper.DetailLinksOne | api/scraping/distrowatch_cloudscraper.py:67 | a single anchor is kept iff it is a marker anchor |
| CloudScraper.DetailLinksAppend | api/scraping/distrowatch_cloudscraper.py:67 | the filter keeps document order: two stretches of the page give the anchors of the first, then those of the second |
| CloudScraper.FirstByNameNames | api/scraping/distrowatch_cloudscraper.py:76-85 | de-duplication keeps every name of the input, and no name twice |
| CloudScraper.FirstByNameFirst | api/scraping/distrowatch_cloudscraper.py:76-85 | the anchor kept for a name is its first anchor, and kept anchors follow the order of first occurrence |
| CloudScraper.NormalizeUrl | api/scraping/distrowatch_cloudscraper.py:88-89 | an `href` starting with `http` is kept unchanged, any other becomes the site root `https://distrowatch.com`, `/`, then the `href`; either way the URL starts with `http` |
| CloudScraper.NormalizeUrlEndsWithHref | api/scraping/distrowatch_cloudscraper.py:88-89 | the `href` is only ever prefixed, never altered: it always ends the URL |
| CloudScraper.NormalizeUrlIdempotent | api/scraping/distrowatch_cloudscraper.py:88-89 | normalising twice gives the same URL as once |
| CloudScraper.RankOf | api/scraping/distrowatch_cloudscraper.py:92-104 | the rank is a digit string: the row's first cell when it is all digits, otherwise the decimal text of the 1-based position, which reads back as that position |
| CloudScraper.DistroListNames | api/scraping/distrowatch_cloudscraper.py:67-110 | the list's names are exactly the distinct texts of the marker anchors, none repeated |
| CloudScraper.DistroListEntries | api/scraping/distrowatch_cloudscraper.py:78-110 | each entry comes from the first anchor with its name and is numbered by its own place; its URL is that anchor's `href`, prefixed with the site root and `/` unless it starts with `http` (so it always starts with `http`); ranks are numeric |
| CloudScraper.BuildEntry | api/scraping/distrowatch_cloudscraper.py:87-110 | the loop body builds the entry of a kept anchor: the `href` kept when it starts with `http` and prefixed with the site root and `/` otherwise, a numeric rank (the position when the row's first cell is not all digits) and the anchor's text as name |
| CloudScraper.DistroListRanks | api/scraping/distrowatch_cloudscraper.py:92-104 | entry k's rank is the first cell of its first anchor's row when that cell is all digits, and otherwise reads back as k + 1, its place in the list |
| CloudScraper.ScrapeDistroList | api/scraping/distrowatch_cloudscraper.py:43-118 | the loop with its `seen` set returns the list above, and `[]` on a failed request or a page without marker anchors |
| CloudScraper.NormalizeKey | api/scraping/distrowatch_cloudscraper.py:148 | a key holds no colon and no upper-case ASCII letter |
| CloudScraper.NormalizeKeyIdempotent | api/scraping/distrowatch_cloudscraper.py:148 | normalising a key again leaves it unchanged |
| CloudScraper.InfoMapKeys | api/scraping/distrowatch_cloudscraper.py:144-150 | the keys are exactly the normalised first cells of rows with two or more cells |
| CloudScraper.InfoMapLastWins | api/scraping/distrowatch_cloudscraper.py:145-150 | a key holds the second cell of the last row naming it |
| CloudScraper.ScrapeDistroDetails | api/scraping/distrowatch_cloudscraper.py:120-156 | None on a failed request, `{}` without an Info table, else the row fold above |
| CloudScraper.ApplyLimit | api/scraping/distrowatch_cloudscraper.py:173-179 | a prefix of the list: whole for a limit of None or 0, `min(limit, n)` long for a positive limit, Python's negative slice otherwise |
| CloudScraper.ScrapeAll | api/scraping/distrowatch_cloudscraper.py:158-184 | the list cut to the limit, never longer than a positive limit |
| IsoDate.ParseIso | test_scraping_local.py:102 | whatever `strptime('%Y-%m-%d')` accepts is a date that exists |
| IsoDate.ParseIsoRoundTrip | test_scraping_local.py:102 | reading a date's `YYYY-MM-DD` text gives the date back |
| IsoDate.FormatDmyFields | test_scraping_local.py:103 | `DD/MM/YYYY` carries the same day, month and year |
| IsoDate.NormalizeReleaseDate | test_scraping_local.py:101-107 | text that does not parse is kept raw; parsed text becomes `DD/MM/YYYY` |
| IsoDate.NormalizeIsoDate | test_scraping_local.py:101-104 | a valid ISO date is rewritten as its `DD/MM/YYYY` form |
| IsoDate.NormalizeFixtureExample | test_scraping_local.py:101-104 | `2025-11-17` becomes `17/11/2025` |
| IsoDate.NormalizeKeepsImpossibleDay | test_scraping_local.py:105-106 | `2025-02-29` does not exist, so it is kept raw |
| Popularity.MatchAtSound | test_scraping_local.py:115 | a match spells out `4 semanas:`, blanks, the rank digits, blanks, and `(hits)` |
| Popularity.MatchAtComplete | test_scraping_local.py:115 | wherever the text spells out that shape, the match there returns exactly its two groups |
| Popularity.SearchIndex | test_scraping_local.py:115 | `re.search` reports the leftmost start where the pattern matches |
| Popularity.SearchFindsFirstPhrase | test_scraping_local.py:113-117 | when the phrase first occurs where the shape is spelled out, the search returns that occurrence's groups |
| Popularity.HitsValue | test_scraping_local.py:118-120 | the hits conversion fails exactly when the hits text holds no digit |
| Popularity.HitsIgnoreSeparator | test_scraping_local.py:118-124 | `1.234`, `1,234` and `1234` give the same figure |
| Popularity.PopularityExample | test_scraping_local.py:115 | `4 semanas: 21 (1.603)` yields rank `21` and hits `1.603` |
| LocalScraping.SlugOf | test_scraping_local.py:42-44 | an extracted slug is non-empty and uses only `[a-z0-9_-]` |
| LocalScraping.SlugAtUnique | test_scraping_local.py:42 | at most one start position of an `href` matches the slug pattern |
| LocalScraping.SlugOfSpelled | test_scraping_local.py:41-44 | an `href` ending in `distrowatch.com/<slug>`, optionally followed by one newline, yields that slug |
| LocalScraping.SlugOfSound | test_scraping_local.py:42-44 | a slug is only extracted from an `href` of that shape |
| LocalScraping.CellEntry | test_scraping_local.py:32-50 | a cell yields an entry iff it has a name cell whose anchor's `href` yields a slug; the entry has the rank and the `url/DistroWatch.com_ <name>.html` file |
| LocalScraping.AddCell | test_scraping_local.py:29-50 | one cell: fails with the rank text iff `int()` rejects it, else appends at most one entry, with a valid slug and its file name |
| LocalScraping.ReadCell | test_scraping_local.py:29-50 | the loop body for one cell computes exactly the step above |
| LocalScraping.Collected | test_scraping_local.py:28-50 | entries gathered so far: at most one per cell, each with a valid slug and its file name |
| LocalScraping.TableTakesFirst | test_scraping_local.py:28-56 | with a positive limit and every rank readable, the ranking is the first `limit` entries of the whole table, or all of them when there are fewer |
| LocalScraping.RankingTakesFirst | test_scraping_local.py:28-56 | with a positive limit, the ranking is the first `limit` entries of any prefix of the table whose ranks read and which gathers `limit` entries (or is the whole table); later cells are never read |
| LocalScraping.RankingAtMostLimit | test_scraping_local.py:55-56 | a positive limit bounds the number of entries |
| LocalScraping.RankingStopsAfterFirstCell | test_scraping_local.py:55-56 | a limit of zero or less stops the loop after its first cell |
| LocalScraping.ScrapeRankingPageLocal | test_scraping_local.py:13-59 | the loop with its `int()`, slug test and `break` returns the ranking above, or the first rank text `int()` rejects |
| LocalScraping.CategoryOf | test_scraping_local.py:84-91 | a category is found iff some `li` has a `b` mentioning `Categoria` |
| LocalScraping.FindCategory | test_scraping_local.py:84-91 | the category loop returns the first such item's anchors joined with `, ` |
| LocalScraping.ReleaseDateOf | test_scraping_local.py:94-108 | fails iff the first release header is in no row; no header gives None; else the first header's date cell, reformatted when it parses and raw otherwise |
| LocalScraping.FindReleaseDate | test_scraping_local.py:94-108 | the release loop returns the first release header's date, reformatted or raw; it raises when the header is in no row |
| LocalScraping.PopularityFound | test_scraping_local.py:111-126 | when it does not fail, the rank and hits are both found or both absent, and found iff some text node mentions `4 semanas` with a matching parent |
| LocalScraping.FindPopularity | test_scraping_local.py:111-126 | the popularity loop reads the first node mentioning `4 semanas` whose parent matches, and gives no figures when none does |
| LocalScraping.DetailsLocal | test_scraping_local.py:146-158 | a record carries the slug as `id` and the file name as `source_file` |
| LocalScraping.ScrapeDistroDetailsLocal | test_scraping_local.py:62-162 | None for a missing or unreadable file or a raised step, else the record of the three loops |
| LocalScraping.DetailsLocalOutcome | test_scraping_local.py:62-162 | None iff the file is missing or unreadable, the first release header is in no row, or the popularity hits hold no digit; otherwise the record carries the `h1` text and each probe's own finding |
| LocalScraping.HeadingNotRequired | test_scraping_local.py:77-91 | whether a record is returned does not depend on the `h1` or the `li` items; a page without `h1` still gives one |
| LocalScraping.FirstHitsConversion | test_scraping_local.py:118-120 | `int()` of the hits without `,` and `.` succeeds iff they hold a digit, and agrees with the hits figure |
| LocalScraping.HitsFallbackFails | test_scraping_local.py:119-124 | the `except` fallback never succeeds when the first conversion failed |
| LocalScraping.PopularityFailsWithoutDigit | test_scraping_local.py:113-124 | the popularity step fails (making the record None) iff the first matched hits text holds no digit |
| LocalScraping.PopularityOfSpelled | test_scraping_local.py:113-117 | a page whose first popularity node reads `4 semanas: <rank> (<hits>)` yields that rank and hits figure |
| LocalScraping.KeptAtMostOne | test_scraping_local.py:184-188 | the results hold at most one record per ranking entry |
| LocalScraping.KeptFromEntries | test_scraping_local.py:184-188 | every record carries the slug and file name of some ranking entry |
| LocalScraping.KeptOne | test_scraping_local.py:185-188 | one entry alone gives its record when the detail scraper returns one, and nothing otherwise |
| LocalScraping.KeptAppend | test_scraping_local.py:184-188 | results keep ranking order: two stretches of entries give the records of the first, then those of the second |
| LocalScraping.KeptComplete | test_scraping_local.py:184-188 | every entry the detail scraper returns a record for has that record in the results |
| LocalScraping.AddDetails | test_scraping_local.py:185-188 | the loop body appends the entry's record exactly when there is one |
| LocalScraping.LocalRunSaved | test_scraping_local.py:171-196 | a written result has `total == len(distros) <= 10`, the run's time plus `Z`, records that trace to ranking entries, and the record of every entry the detail scraper reads |
| LocalScraping.RunLocalScraping | test_scraping_local.py:165-200 | `main` ends as modelled: ranking failure, no distros, or the saved output |
| Proxies.KeptLinesMembers | test_proxies_distrowatch.py:33-43 | a line is kept, stripped, iff after stripping it is non-empty and does not start with `#` |
| Proxies.KeptLinesOne | test_proxies_distrowatch.py:35-42 | one line alone is kept, stripped, iff the stripped line is non-empty and not a comment |
| Proxies.KeptLinesAppend | test_proxies_distrowatch.py:35-42 | the filter keeps the lines' order and multiplicity: two stretches keep what each keeps, one after the other |
| Proxies.AppendList | test_proxies_distrowatch.py:33-42 | the inner loop appends the list's kept lines tagged with its scheme, and `count` is their number |
| Proxies.ProxiesOfEachScheme | test_proxies_distrowatch.py:21-45 | each scheme's proxies are its own list's kept lines, tagged with it; a failed or non-200 list gives none |
| Proxies.LoadedInSourceOrder | test_proxies_distrowatch.py:21-30 | the lists are read in the order http, socks5, socks4 |
| Proxies.LoadList | test_proxies_distrowatch.py:21-45 | one list loaded: the proxies and counts of the first `n` lists become those of the first `n + 1` |
| Proxies.LoadProxyLists | test_proxies_distrowatch.py:17-48 | the nested loops return all proxies as above, with a count per answered list equal to its kept lines |
| Proxies.CloudScraperCheck | test_proxies_distrowatch.py:50-88 | success iff status 200 and the body contains `distrowatch` (any case) or `Last 1 month`; a response reports its status, an exception a label |
| Proxies.CloudScraperErrorPrecedence | test_proxies_distrowatch.py:80-87 | the first matching `except` wins: a connect timeout is `TIMEOUT`, a proxy error `PROXY_ERROR` |
| Proxies.PlaywrightCheck | test_proxies_distrowatch.py:90-153 | schemes other than http/socks5 give `UNSUPPORTED`, addresses not splitting into two give `INVALID_FORMAT`, success means status 200 |
| Proxies.PlaywrightOutcomes | test_proxies_distrowatch.py:110-153 | past the address check: a port `int()` rejects gives `ValueError`, a browser timeout `TIMEOUT`, another exception its class name, a missing response `AttributeError`; a response reports its status and succeeds iff 200 with the DistroWatch marker |
| Proxies.PlaywrightAddressFormat | test_proxies_distrowatch.py:106-110 | the address is rejected iff it does not hold exactly one `:`, and then splits as `host:port` |
| Proxies.PlaywrightSuccess | test_proxies_distrowatch.py:112-145 | a success used a browser set to the proxy's own scheme, host and `int` port, and read the test page with status 200 |
| Proxies.PlaywrightOnlyAsFallback | test_proxies_distrowatch.py:197-203 | Playwright decides iff CloudScraper failed and the scheme is http or socks5 |
| Proxies.TestOneOutcome | test_proxies_distrowatch.py:197-203 | a proxy works iff CloudScraper succeeds or, on http/socks5, Playwright does; otherwise the CloudScraper verdict stands |
| Proxies.TallyOf | test_proxies_distrowatch.py:192-211 | every tested proxy is counted exactly once, as working or as failed: `len(working) + failed == total` |
| Proxies.TallyOne | test_proxies_distrowatch.py:198-211 | one proxy alone: working with the method that succeeded when its test succeeds, else one failure |
| Proxies.TallyAppend | test_proxies_distrowatch.py:192-211 | the tally keeps proxy order: two stretches give the working proxies of the first then of the second, and the sum of their failures |
| Proxies.WorkingAreSuccesses | test_proxies_distrowatch.py:205-208 | each working proxy had a successful test and records the method that succeeded |
| Proxies.SuccessesAreWorking | test_proxies_distrowatch.py:205-208 | conversely, every proxy whose test succeeds is among the working ones, with its method |
| Proxies.FailedCountsFailures | test_proxies_distrowatch.py:209-211 | `failed_count` is the number of proxies whose test failed |
| Proxies.CountsBySchemeAddUp | test_proxies_distrowatch.py:241-244 | the per-scheme working counts add up to the working count |
| Proxies.TestProxy | test_proxies_distrowatch.py:197-203 | the loop body's verdict for one proxy is the one defined above: CloudScraper first, Playwright only after it fails on http or socks5 |
| Proxies.TestProxies | test_proxies_distrowatch.py:192-211 | the test loop computes the tally above |
| Proxies.ProxyRunSaved | test_proxies_distrowatch.py:239-253 | a saved result's working count is its proxy count, at most the number tested, split among the three schemes |
| Proxies.RunProxyTest | test_proxies_distrowatch.py:155-253 | `main` ends as modelled: no proxies, none working, or the saved output |
| ScrapingRoutes.GetOr | api/scraping/routes.py:38-39 | `data.get(key, default)` is the stored value when present, else the default |
| ScrapingRoutes.StatusOf | api/scraping/routes.py:25-40 | `no_data` iff there is no snapshot; otherwise `available` with the stored `scraped_at` |
| ScrapingRoutes.StatusTotal | api/scraping/routes.py:39 | a missing `total` reports 0; a stored one, even null, is reported as stored |
| ScrapingRoutes.PageContents | api/scraping/routes.py:44-59 | for non-negative arguments the page has `min(limit, max(0, total - skip))` elements, from `skip` on |
| ScrapingRoutes.PagesJoin | api/scraping/routes.py:59 | consecutive pages together form the page spanning both |
| ScrapingRoutes.DefaultPage | api/scraping/routes.py:44 | the default page is the first 100 distributions |
| ScrapingRoutes.DataOf | api/scraping/routes.py:43-60 | 404 without a snapshot; a missing `distros` is treated as an empty list |
| ScrapingRoutes.DataTotalIgnoresPaging | api/scraping/routes.py:54-59 | `total` is the full list's length whatever skip and limit are, and the page is its slice |
| ScrapingRoutes.Written | api/scraping/routes.py:82-87 | the written snapshot has exactly the keys `scraped_at`, `total`, `distros`, `metadata` |
| ScrapingRoutes.WrittenViews | api/scraping/routes.py:82-90 | after a run, status reports the run's time and total 0, and the data view agrees with it (empty list) |
| ScrapingRoutes.SnapshotStore.ExecuteScraping | api/scraping/routes.py:75-90 | the stored snapshot becomes the written one |
| ScrapingRoutes.SnapshotStore.ClearCache | api/scraping/routes.py:93-102 | the snapshot is gone afterwards; the reply is `cleared` iff one was present |
| ScrapingRoutes.ClearTwice | api/scraping/routes.py:96-102 | a second reset always answers `already_empty`, and the views then report no data and 404 |

## Left out

- Network access (`cloudscraper`, `requests`, Playwright), file reading and writing, and HTML parsing are not modelled. Their results are parameters: anchors, cells, text nodes, responses, a browser function, and the contents of the cache file.
- Logging and `print` output are not modelled, including the progress, ETA and summary lines. The proxy tester's per-list counts are returned instead of printed.
- Floating point is not modelled. This covers the rating probe (`float` at test_scraping_local.py:129-144), the success rate and ETA arithmetic, and JSON numbers other than integers.
- Clocks: `datetime.utcnow().isoformat()` is a parameter `now`; `time.sleep` and the elapsed time are not modelled.
- The `delay` of `DistroWatchCloudScraper.__init__` is unused by the scraper and is not modelled. The `limit` of `execute_scraping` is only logged.
- `POST /scraping/trigger` (background-task scheduling and its reply) is not modelled. Its only effect is `execute_scraping`, which is modelled.
- Character classes are ASCII, plus the Latin-1 blanks for `\s` and `str.strip`. The following Unicode behaviour is not modelled: Unicode digits for `\d`, `isdigit` and `int()`, wider Unicode whitespace, and `str.lower` beyond ASCII. `int()` digit grouping with underscores is not modelled either.
- `get_text(strip=True)` and `get_text()` are taken as given texts; BeautifulSoup's whitespace handling and nested-tag text assembly are not modelled.
- A cache file that does not hold a JSON object, or that fails to decode, is not modelled (the routes would raise a server error).
- `KeyboardInterrupt` and other exceptions escaping `main` are not modelled. In the local scraper a rank `int()` rejects ends the run as `RankingFailed`.
- Proxies.CloudScraperCheck: an exception is described by its `requests` classes and name rather than by the class hierarchy itself.
- Proxies.TallyOf: the network's answer for each proxy is given per position (`trials`), so two tests of the same address may differ, as they can in the program.

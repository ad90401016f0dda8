# PR triage core, modelled in Dafny

This project models the decision logic of a small PR-triage service. The
service takes pull-request references, enriches them with GitHub metadata,
scores them, and suggests next steps. It consists of four parts:

- **Scoring** (`scoring.dfy`, module `Scoring`) reads a PR dictionary and
  defaults its fields. It computes eight qualitative 0-10 dimensions and a
  0-100 attention figure, and converts the scores to a dictionary.
- **Recommendations** (`recommend.dfy`, module `Recommend`):
  - Per-PR next steps: the triggered templates, in rule order,
    de-duplicated and capped at three. This is an imperative method with
    the source's `seen`-set loop.
  - A batch-level roadmap hint, chosen by the first of five threshold rules
    that fires.
- **GitHub** (`github.dfy`, module `GitHub`):
  - `parse_pr_url`: the anchored regular-expression match.
  - The post-fetch half of `enrich_pr`: the loop over the changed files and
    the record it builds. The three fetched values are parameters.
- **Store** (`db.dfy`, module `Db`):
  - Key resolution: an explicit id, `owner/repo#number`, a GitHub URL, or
    the legacy `repo#number`.
  - The field normalisation of `upsert_pr`.
  - The `INSERT ... ON CONFLICT(id) DO UPDATE` upsert. The `prs` table is a
    class `PrStore` holding a `map` from id to row, changed in place.

Two shared modules support these. `wrappers.dfy` defines `Option` and
`Result`. `text.dfy` (module `Text`) defines Python's `in`, `str.split`,
ASCII `lower()`, `int()` on digit strings and `str()` of integers.

## How Python is modelled

- Dictionaries become records with `Option` fields. `None` stands for a
  missing key or a `null` value.
- Truthiness is "present and not the zero value": `""`, `0`, `False`.
  Python's `a or b` is written out as `OrStr` and `OrInt`.
- Floats are `real`.

## What the code does and does not do

- `score_pr` computes one attention figure: 30 plus a sum of five fixed
  risk increments, less ten times the doc-touch ratio, clamped to
  [0, 100]. There is no per-factor breakdown and no separate rounding of
  factors.
- There are two URL parsers. `parse_pr_url` (`server/github.py`) is an
  anchored regular expression. `_normalize_pr_identity`
  (`server/db.py`) splits the URL at "github.com/", "/pull/" and "/"
  instead. Both are modelled, and they disagree on some inputs (a
  repository named "pull", for one).
- No code parses a short `owner/repo#number` reference. The store only
  builds such ids and accepts them as given.
- No code ranks PRs, links runs to PRs or backfills the store from runs.
  The `run_prs` table is only declared.

## Model

| member | source | states |
|---|---|---|
| Text.FindFirst | server/db.py:247 | the first index where a substring occurs, or None exactly when it occurs nowhere (Python's `in`) |
| Text.Before | server/db.py:249-252 | `split(sep)[0]` is the prefix that ends where `sep` first occurs, holds no `sep`, and is the whole string when `sep` is absent |
| Text.After | server/db.py:249-252 | the rest after the first `sep` exists exactly when `sep` occurs, and rebuilds the string as `Before + sep + rest` |
| Text.BeforeCharFree | server/db.py:252 | the owner part before the first "/" contains no "/" |
| Text.ContainsMiddle | server/db.py:247 | a string contains every piece spliced into it |
| Text.Contains | server/db.py:247 | Python's `sub in s`: some occurrence exists (defined by FindFirst) |
| Text.DigitsValue | server/db.py:251 | Python's `int()` on a string of ASCII digits, most significant digit first |
| Text.NatToString | server/github.py:60 | Python's `str()` of a non-negative integer: a non-empty digit string |
| Text.ToLower | server/github.py:52 | lower-casing keeps the length, leaves no ASCII upper-case letter, moves each upper-case letter down by 32 and leaves every other character unchanged |
| Text.NatToStringRoundTrip | server/github.py:60 | reading back the decimal text of a number gives the number |
| Text.IntToString | server/github.py:60 | `str(n)` is non-empty; for `n >= 0` it is all digits and reads back as `n`; for `n < 0` it starts with '-' |
| Scoring.Clamp | server/scoring.py:17-18 | `max(lo, min(hi, v))` is within [lo, hi], returns v inside the range and the nearer bound outside it, and returns lo when hi < lo |
| Scoring.Clamp10 | server/scoring.py:17 | with the default bounds, the result lies in [0, 10] |
| Scoring.ClampMonotone | server/scoring.py:17-18 | clamping preserves order |
| Scoring.Extract | server/scoring.py:23-31 | churn is the sum of the defaulted additions and deletions; the state is never empty and keeps a given non-empty state |
| Scoring.SizePenalty | server/scoring.py:33-41 | the size-penalty step is 0, 2, 4 or 6 |
| Scoring.SizePenaltyCountsThresholds | server/scoring.py:33-41 | the penalty is two points per threshold (50, 200, 600) that churn has reached |
| Scoring.SizePenaltyMonotone | server/scoring.py:33-41 | more churn never lowers the penalty |
| Scoring.Risk | server/scoring.py:53-63 | risk lies in [0, 85]; it is 0 exactly when no increment applies and 85 exactly when all five do |
| Scoring.ScoreMetrics | server/scoring.py:43-65 | every dimension lies in [0, 10], attention in [0, 100], and attention is 30 plus risk less ten times the doc ratio, clamped to [0, 100] |
| Scoring.ScorePr | server/scoring.py:21-77 | any PR dictionary, however incomplete, scores within range |
| Scoring.EmptyPrScores | server/scoring.py:23-77 | the empty dictionary scores (8, 5, 7, 5, 4, 7, 6, 5, 65) |
| Scoring.AttentionFromRisk | server/scoring.py:65 | with a doc ratio in [0, 1] the lower clamp never acts: attention is `min(100, 30 + risk - 10*ratio)`, at least 20 |
| Scoring.MoreChurnNeverScoresHigher | server/scoring.py:43-50 | with all else equal, more churn never raises code quality, verbosity, efficiency, clean code or ingenuity |
| Scoring.MoreFilesNeverMoreReusable | server/scoring.py:49 | with all else equal, more changed files never raise reusability |
| Scoring.ScoresToDict | server/scoring.py:80-91 | the dictionary has exactly the nine score names as keys, and reading them back gives the scores |
| Recommend.Prefix | server/recommend.py:63-64 | the cap keeps the first n elements, or all when there are fewer |
| Recommend.DedupWith | server/recommend.py:57-62 | de-duplication yields a repeat-free list that holds exactly the input elements not already seen |
| Recommend.FirstIndex | server/recommend.py:56-62 | the index of the first occurrence of an element: it holds that element and nothing before it does |
| Recommend.DedupOrderedAt | server/recommend.py:56-62 | de-duplication preserves order: kept elements appear in the order of their first occurrences in the input |
| Recommend.DedupOfDistinct | server/recommend.py:57-62 | a list without repeats, none of them already seen, is left whole |
| Recommend.TemplatesDiffer | server/recommend.py:22-28 | the five templates are pairwise different |
| Recommend.FiveWhen | server/recommend.py:45-54 | five different strings, each appended under its own condition, form a repeat-free list holding each string only under its condition |
| Recommend.Triggered | server/recommend.py:41-54 | the `recs` list: each template appended when its rule fires, in rule order (its properties are TriggeredFacts) |
| Recommend.TriggeredFacts | server/recommend.py:41-54 | `recs` has no repeats, holds only template values, and holds each template only when its rule fired |
| Recommend.Recommended | server/recommend.py:31-66 | at most three suggestions, no repeats, all templates, and exactly the first three triggered ones in rule order |
| Recommend.Recommendations | server/recommend.py:41-66 | the method returns exactly `Recommended(scores, pr)` |
| Recommend.FirstDistinct | server/recommend.py:57-66 | the loop with `seen`, `deduped` and the break returns the first `cap` distinct elements in order |
| Recommend.DedupAdvance | server/recommend.py:59-62 | one iteration of the loop preserves "done so far plus de-duplicated rest is the whole answer" |
| Recommend.TestsSuggestionFirst | server/recommend.py:43-46 | the tests suggestion leads the list exactly when stability is below 6 or tests are missing |
| Recommend.SuggestionConditions | server/recommend.py:45-54 | each returned suggestion's own condition holds |
| Recommend.Count | server/recommend.py:83-98 | a count never exceeds the batch size |
| Recommend.CountConcat | server/recommend.py:83-98 | counts over a concatenation add up |
| Recommend.UnscoredItemIgnored | server/recommend.py:83-98 | an item without scores changes no score-based count, wherever it sits |
| Recommend.ItemWithoutPrIgnored | server/recommend.py:91-94 | an item without a PR dictionary never counts as missing tests |
| Recommend.Flags | server/recommend.py:83-98 | whether one item counts toward attention (> 70), low docs (< 5), missing tests or performance risk (< 5); items without scores or without a PR dictionary never count for the respective signals |
| Recommend.Threshold | server/recommend.py:100-108 | `max(2, total // k)` is at least 2 and at least `total // k`, and equals one of them |
| Recommend.Fires | server/recommend.py:100-108 | a signal's count reaches `max(2, total // 3)` for attention and `max(2, total // 4)` for the others |
| Recommend.RoadmapHint | server/recommend.py:69-111 | roadmap_hint returns one of the seven fixed messages |
| Recommend.RoadmapEmpty | server/recommend.py:78-79 | the "No data yet." hint is returned exactly for an empty batch |
| Recommend.RoadmapFirstMatch | server/recommend.py:100-111 | each hint is returned exactly when its rule fires and no earlier rule does |
| Recommend.SingleItemIsSteady | server/recommend.py:100-111 | a single PR can never reach a threshold of 2, so it gets the steady-state hint |
| GitHub.MatchScheme | server/github.py:12 | `https?` consumes "https" or "http" and returns what follows |
| GitHub.MatchSchemeOf | server/github.py:12 | a scheme followed by ':' is matched as that scheme |
| GitHub.MatchHost | server/github.py:12 | `://github.com/` is matched with any non-newline character for the unescaped dot |
| GitHub.MatchHostOf | server/github.py:12 | each such host text is matched |
| GitHub.MatchSegment | server/github.py:12 | `([^/]+)/` yields a non-empty slash-free segment and what follows its '/' |
| GitHub.MatchSegmentOf | server/github.py:12 | every non-empty slash-free segment followed by '/' is matched |
| GitHub.MatchDigits | server/github.py:12 | `(\d+)` yields a greedy non-empty digit run, and what follows does not start with a digit |
| GitHub.MatchDigitsOf | server/github.py:12 | every maximal digit run is matched |
| GitHub.MatchPull | server/github.py:12 | the literal `pull/` is matched |
| GitHub.MatchPullOf | server/github.py:12 | text starting with `pull/` is matched |
| GitHub.SlashFreeRun | server/github.py:12 | the leading run has no '/' and stops at a '/' or the end |
| GitHub.DigitRun | server/github.py:12 | the leading run is all digits and stops at a non-digit or the end |
| GitHub.MatchPrUrl | server/github.py:12-14 | a match is well formed and its rendering is the input (soundness) |
| GitHub.MatchPrUrlComplete | server/github.py:12-14 | every well-formed match is found again in its own rendering (completeness) |
| GitHub.ParsePrUrl | server/github.py:10-16 | owner and repo are non-empty and slash-free and the number is non-negative; None exactly when the regex does not match |
| GitHub.ParsePrUrlOfParts | server/github.py:10-16 | `https://github.com/{owner}/{repo}/pull/{digits}` plus a non-digit tail parses to its parts |
| GitHub.ParsePrUrlOfMatch | server/github.py:10-16 | every URL the regex accepts, with either scheme, any non-newline character for the dot and any tail not continuing the digits, parses to its owner, repo and `int(digits)` |
| GitHub.FallbackUrlRoundTrip | server/github.py:10-16 | the URL enrich_pr synthesises (server/github.py:67) parses back to the same owner, repo and number |
| GitHub.FallbackUrl | server/github.py:67 | the synthesised URL `https://github.com/{owner}/{repo}/pull/{number}` |
| GitHub.IsTestFile | server/github.py:52-54 | a lower-cased filename holds one of "test/", "/test/", "tests/", ".spec.", ".test." |
| GitHub.IsDocFile | server/github.py:52-56 | a lower-cased filename holds one of "readme", "docs/", "/docs/", ".md", ".rst" |
| GitHub.CountDocFiles | server/github.py:55-56 | the doc count never exceeds the number of files |
| GitHub.FileStep | server/github.py:49-56 | one more file updates the test flag by "or" and the doc count by one or zero |
| GitHub.FileHeuristics | server/github.py:45-56 | the loop's flag is "some file looks like a test", its doc count is the count of doc-like files, and its file count is the list length; all are zero or false for a non-list |
| GitHub.DocTouchRatio | server/github.py:57 | the ratio lies in [0, 1] when touches do not exceed files, and is 0 with no files |
| GitHub.ReviewCount | server/github.py:38 | the length of the review list, or 0 when the response is not a list |
| GitHub.PrKey | server/github.py:60 | the `"{owner}/{repo}#{number}"` key |
| GitHub.BuildRecord | server/github.py:59-80 | the record: fetched fields when a PR object is present, otherwise None, and the URL synthesised when none is given |
| GitHub.Enriched | server/github.py:38-81 | id `owner/repo#number`, CI "unknown", no diff stats; with a PR object, title, state, timestamps and sizes are copied from it; author is `user.login`; draft is 1 exactly for a true `draft`; the URL is the PR's non-empty `html_url`, else the synthesised one; has_tests is 1 exactly when some file looks like a test; the ratio is doc files over files (0 for an empty or non-list file list), in [0, 1]; review count is the list length |
| GitHub.EnrichPr | server/github.py:38-81 | the method returns exactly `Enriched(...)` |
| GitHub.EnrichedWithoutPr | server/github.py:40-74 | without a PR object every fetched field is None, draft is 0, and the URL is synthesised |
| GitHub.EnrichedUrlNamesPr | server/github.py:67 | a synthesised URL names the PR it was built for |
| GitHub.SlashTestMarkerSubsumed | server/github.py:53 | the "/test/" marker adds nothing beyond "test/" |
| Db.UrlParts | server/db.py:248-255 | on success the owner has no '/' and the number is non-negative; None is any exception the `try` swallows (which parts it reads: Db.UrlPartsOfPath, Db.UrlPartsLocated) |
| Db.UrlPartsLocated | server/db.py:249-252 | parsed parts occur in the URL as "github.com/{owner}/{repo}/pull/" |
| Db.Spliced | server/db.py:249-252 | re-joining the split pieces places owner and repo between "github.com/" and "/pull/" |
| Db.OrStr | server/db.py:283-285 | Python's `a or b` on optional strings: the first truthy value, else the second |
| Db.OrInt | server/db.py:291-293 | Python's `a or b` on optional integers: the first non-zero value, else the second |
| Db.Flag | server/db.py:292-295 | `1 if flag else 0` is 0 or 1, and 1 exactly for a true flag |
| Db.ResolveParts | server/db.py:245-255 | with a truthy id or all three parts present nothing changes; otherwise, when `html_url or url` contains "github.com" and "/pull/" and the split parse succeeds, all three parts are the parsed ones, and in every other case none change |
| Db.NormalizeIdentity | server/db.py:234-269 | a truthy id is kept; otherwise truthy owner and repo plus a number, after the URL step (Db.ResolveParts), give `owner/repo#number`; otherwise the original repo plus a number give `repo#number`; ValueError exactly when none applies; ids are never empty |
| Db.NoEarlyPull | server/db.py:249 | "/pull/" cannot start inside "{owner}/{repo}" unless the repo is named "pull" |
| Db.NoEarlyHost | server/db.py:249 | "github.com/" cannot start inside the scheme of a synthesised URL |
| Db.DigitsSlashFree | server/db.py:251 | a digit string holds no '/' |
| Db.HostSplit | server/db.py:249 | the host split of a synthesised URL yields its path |
| Db.PullSplit | server/db.py:249-250 | the "/pull/" split yields "{owner}/{repo}" and the digits |
| Db.NumberOfPath | server/db.py:251 | after "/pull/", the number text is exactly the digits when a further path such as "/files" follows |
| Db.UrlPartsOfPath | server/db.py:248-255 | a URL `{front}github.com/{owner}/{repo}/pull/{digits}{tail}`, with any front that holds no earlier "github.com/" and an empty tail or one starting with "/", yields exactly (owner, repo, int(digits)), when the repo is not "pull" and neither "github.com/" nor a second "/pull/" appears in the path |
| Db.UrlPartsOfHttp | server/db.py:248-255 | a plain `http://github.com/` PR URL, with or without further path segments, is read back like an https one |
| Db.OwnerSplit | server/db.py:252 | the single split at '/' yields owner and repo |
| Db.RepoNamedPullNotParsed | server/db.py:249-255 | in a repository named "pull" the number text is "pull", `int` raises, and the fallback parses nothing |
| Db.RepoNamedPullNotKeyed | server/db.py:245-267 | a row holding only the URL of a PR in a repository named "pull" raises the ValueError |
| Db.UrlPartsOfFallback | server/db.py:248-255 | the URL fallback reads back the triple of any URL enrich_pr synthesises whose repo is not "pull" and whose path does not repeat "github.com/" |
| Db.FallbackUrlMentions | server/db.py:247 | a synthesised URL passes the "github.com" and "/pull/" membership tests |
| Db.UrlOnlyRowGetsPrKey | server/db.py:245-258 | a row holding only a synthesised URL gets the enricher's key and parts |
| Db.NormalizeRow | server/db.py:279-325 | fails exactly when key resolution fails; merged rows get state "merged"; author, URL, changed_files and review_count fall back as in the source; additions, deletions and the doc ratio default to 0; title, timestamps and diff stats are copied; flags are 1 exactly for `True`; CI defaults to "unknown"; the row invariant holds |
| Db.RowInvariant | server/db.py:279-325 | what every normalised row satisfies: a non-empty id, 0/1 flags, a non-empty CI status, and state "merged" whenever `merged_at` is truthy |
| Db.RenormalizeIsIdentity | server/db.py:279-325 | normalising a stored row again gives the same row (when author and URL are not "") |
| Db.NormalizeIdempotent | server/db.py:279-325 | normalisation is idempotent |
| Db.EnrichedRowKeepsKey | server/db.py:279-325 | an enrich_pr record (server/github.py:59-80) is stored under `owner/repo#number` with its flags, ratio, review count, URL and "unknown" CI intact |
| Db.Upserted | server/db.py:327-333 | after an upsert the normalised row sits under its id, the key set gains that id, and other rows are unchanged; on ValueError nothing changes |
| Db.UpsertKeepsKeyed | server/db.py:327-333 | every row stays stored under its own id and keeps the row invariant |
| Db.UpsertIdempotent | server/db.py:327-333 | upserting the same input twice equals upserting it once |
| Db.LastWriteWins | server/db.py:330-332 | of two writes to one id, the second write's row remains |
| Db.DistinctUpsertsCommute | server/db.py:327-333 | writes to different ids commute |
| Db.UpsertedIsStore | server/db.py:327-333 | a successful upsert stores the normalised row under its id, as a map update |
| Db.RewriteStoredRow | server/db.py:279-333 | writing a stored row back changes nothing |
| Db.PrStore.constructor | server/db.py:90-111 | the table starts empty and keyed |
| Db.PrStore.UpsertPr | server/db.py:271-333 | the table becomes `Upserted(old table, input)` and stays keyed; the result is Err with the ValueError message exactly when normalisation fails |

## Left out

- The HTTP layers are not part of this model: the request routing, CORS,
  manifests and JSON encoding of the two servers, and the package's
  re-exports (`server/__init__.py` names functions absent from
  `server/github.py`).
- Store infrastructure is not modelled: database path resolution,
  environment variables, directory creation, schema bootstrap and the
  connection with its pragmas. Neither are the queries `get_runs`,
  `get_run_by_id` and `get_recent_prs`, whose ordering and grouping happen
  inside SQLite, or the `run_prs` table, which is only declared.
- The GitHub transport is not modelled: the async HTTP client,
  `fetch_json`, timeouts and the authorisation header. The decoded PR
  object, file list and review list are parameters. A failed file or
  review fetch therefore arrives as an empty list (`or []`).
- Db.PrInput: `diff_stats` is taken to be a string already. The
  `json.dumps` of a non-string value, and its `"{}"` fallback, are left out.
- Db.UrlParts: `int()` is modelled on non-empty ASCII digit strings only.
  Python also accepts a sign, surrounding whitespace, underscores and
  non-ASCII digits.
- GitHub.MatchDigits: `\d` is restricted to ASCII digits. Python's `re`
  also matches other Unicode decimal digits.
- Text.ToLower: lower-casing is ASCII only. Python's `str.lower` also folds
  non-ASCII letters.
- GitHub.FileHeuristics: a filename that is present but `null` reads as "".
  In Python it would raise on `.lower()`.
- Python's dynamic typing is left out:
  - arbitrary truthiness of non-boolean flags;
  - `int()` and `float()` applied to strings or other objects;
  - `getattr` defaults on score objects, which typed `Scores` make
    unnecessary.
- Scoring and DocTouchRatio use real arithmetic. IEEE double rounding is
  not modelled.
- Scoring.ScoresToDict: the dictionary's key order is not modelled; a map
  has none.
- Db.RenormalizeIsIdentity: stated only for rows whose author and URL are
  not "". Normalisation turns an empty author into the user's login (here
  None) and an empty `html_url` into `url` (here None).
- Db.UrlPartsOfFallback: stated only for repositories not named "pull" and
  paths that do not repeat "github.com/". For those the code's parse
  raises and the `except` keeps the parts as they were. With a repository
  named "pull", the number text is "pull" and `int` raises
  (Db.RepoNamedPullNotParsed). With a second "github.com/", the first
  piece lacks "/pull/" and the index raises an IndexError.
- Db.UrlPartsOfPath: stated under the same two conditions, for a tail
  without a second "/pull/", and for a front without an earlier
  "github.com/".

/**
 * PR identity parsing and the post-fetch half of PR enrichment.  The three
 * fetches (PR object, changed files, reviews) are parameters here: whatever
 * the network returned, already decoded.
 */
module GitHub {
  import opened Wrappers
  import opened Text

  // ---------------------------------------------------------------- parse_pr_url

  /**
   * One match of `https?://github.com/([^/]+)/([^/]+)/pull/(\d+)` at the
   * start of a string, and the text after it.  The unescaped `.` in the host
   * is any character but a newline, kept here as `hostDot`.
   */
  datatype PrUrlMatch = PrUrlMatch(
    secure: bool,
    hostDot: char,
    owner: string,
    repo: string,
    digits: string,
    tail: string)

  /** What a match looks like: the regex's character classes and greedy digits. */
  predicate WellFormed(m: PrUrlMatch) {
    && m.hostDot != '\n'
    && m.owner != [] && '/' !in m.owner
    && m.repo != [] && '/' !in m.repo
    && m.digits != [] && AllDigits(m.digits)
    && (m.tail == [] || !IsDigit(m.tail[0]))
  }

  function SchemeText(secure: bool): string {
    if secure then "https" else "http"
  }

  /** The whole string a match was taken from. */
  function Render(m: PrUrlMatch): string {
    SchemeText(m.secure)
      + ("://github" + [m.hostDot] + "com/"
      + (m.owner + "/"
      + (m.repo + "/"
      + ("pull/"
      + (m.digits + m.tail)))))
  }

  /** `https?`: the scheme, and the text after it. */
  function MatchScheme(u: string): (r: Option<(bool, string)>)
    ensures r.Some? ==> u == SchemeText(r.value.0) + r.value.1
  {
    if |u| >= 5 && u[..5] == "https" then Some((true, u[5..]))
    else if |u| >= 4 && u[..4] == "http" then Some((false, u[4..]))
    else None
  }

  lemma MatchSchemeOf(secure: bool, rest: string)
    requires rest != [] && rest[0] == ':'
    ensures MatchScheme(SchemeText(secure) + rest) == Some((secure, rest))
  {
    var u := SchemeText(secure) + rest;
    assert u[..|SchemeText(secure)|] == SchemeText(secure);
    assert u[|SchemeText(secure)|..] == rest;
    if !secure {
      assert u[4] == ':';
    }
  }

  /** `://github.com/`, with any character but a newline for the dot, and the text after it. */
  function MatchHost(s: string): (r: Option<(char, string)>)
    ensures r.Some? ==> r.value.0 != '\n' && s == "://github" + [r.value.0] + "com/" + r.value.1
  {
    if |s| >= 14 && s[..9] == "://github" && s[9] != '\n' && s[10..14] == "com/" then
      assert s == s[..9] + [s[9]] + s[10..14] + s[14..];
      Some((s[9], s[14..]))
    else None
  }

  lemma MatchHostOf(dot: char, rest: string)
    requires dot != '\n'
    ensures MatchHost("://github" + [dot] + "com/" + rest) == Some((dot, rest))
  {
    var s := "://github" + [dot] + "com/" + rest;
    assert s[..9] == "://github";
    assert s[10..14] == "com/";
    assert s[14..] == rest;
  }

  /** `([^/]+)/`: a non-empty run without '/', the '/' that ends it, and the text after. */
  function MatchSegment(s: string): (r: Option<(string, string)>)
    ensures r.Some? ==> r.value.0 != [] && '/' !in r.value.0 && s == r.value.0 + "/" + r.value.1
  {
    var k := SlashFreeRun(s);
    if k == 0 || k == |s| then None
    else
      assert s == s[..k] + "/" + s[k + 1..];
      Some((s[..k], s[k + 1..]))
  }

  lemma MatchSegmentOf(seg: string, rest: string)
    requires seg != [] && '/' !in seg
    ensures MatchSegment(seg + "/" + rest) == Some((seg, rest))
  {
    var s := seg + "/" + rest;
    SlashFreeRunOf(seg, rest);
    assert s[..|seg|] == seg;
    assert s[|seg| + 1..] == rest;
  }

  /** `(\d+)`: a non-empty greedy run of ASCII digits, and the text after. */
  function MatchDigits(s: string): (r: Option<(string, string)>)
    ensures r.Some? ==> r.value.0 != [] && AllDigits(r.value.0) && s == r.value.0 + r.value.1
    ensures r.Some? ==> r.value.1 == [] || !IsDigit(r.value.1[0])
  {
    var d := DigitRun(s);
    if d == 0 then None
    else
      assert s == s[..d] + s[d..];
      Some((s[..d], s[d..]))
  }

  lemma MatchDigitsOf(digits: string, tail: string)
    requires digits != [] && AllDigits(digits)
    requires tail == [] || !IsDigit(tail[0])
    ensures MatchDigits(digits + tail) == Some((digits, tail))
  {
    var s := digits + tail;
    DigitRunOf(digits, tail);
    assert s[..|digits|] == digits;
    assert s[|digits|..] == tail;
  }

  /** `pull/` right after the repo segment, and the text after it. */
  function MatchPull(s: string): (r: Option<string>)
    ensures r.Some? ==> s == "pull/" + r.value
  {
    if |s| >= 5 && s[..5] == "pull/" then
      assert s == s[..5] + s[5..];
      Some(s[5..])
    else None
  }

  lemma MatchPullOf(rest: string)
    ensures MatchPull("pull/" + rest) == Some(rest)
  {
    var s := "pull/" + rest;
    assert s[..5] == "pull/";
  }

  /** The length of the leading run of characters other than '/' (`[^/]+`, greedy). */
  function SlashFreeRun(s: string): (n: nat)
    ensures n <= |s| && '/' !in s[..n]
    ensures n < |s| ==> s[n] == '/'
  {
    if s == [] || s[0] == '/' then 0
    else
      var k := SlashFreeRun(s[1..]);
      assert s[..k + 1] == [s[0]] + s[1..][..k];
      k + 1
  }

  /** The length of the leading run of ASCII digits (`\d+`, greedy). */
  function DigitRun(s: string): (n: nat)
    ensures n <= |s| && AllDigits(s[..n])
    ensures n < |s| ==> !IsDigit(s[n])
  {
    if s == [] || !IsDigit(s[0]) then 0
    else
      var k := DigitRun(s[1..]);
      assert s[..k + 1] == [s[0]] + s[1..][..k];
      k + 1
  }

  lemma SlashFreeRunOf(a: string, b: string)
    requires '/' !in a
    ensures SlashFreeRun(a + "/" + b) == |a|
  {
    var s := a + "/" + b;
    assert s[|a|] == '/';
  }

  lemma DigitRunOf(d: string, tail: string)
    requires AllDigits(d)
    requires tail == [] || !IsDigit(tail[0])
    ensures DigitRun(d + tail) == |d|
  {
    var s := d + tail;
    if |d| < |s| {
      assert s[|d|] == tail[0];
    }
  }

  /** `re.match` of the PR URL pattern: anchored at the start only. */
  function MatchPrUrl(u: string): (r: Option<PrUrlMatch>)
    ensures r.Some? ==> WellFormed(r.value) && Render(r.value) == u
  {
    match MatchScheme(u)
    case None => None
    case Some((secure, afterScheme)) =>
      match MatchHost(afterScheme)
      case None => None
      case Some((dot, path)) =>
        match MatchSegment(path)
        case None => None
        case Some((owner, afterOwner)) =>
          match MatchSegment(afterOwner)
          case None => None
          case Some((repo, afterRepo)) =>
            match MatchPull(afterRepo)
            case None => None
            case Some(number) =>
              match MatchDigits(number)
              case None => None
              case Some((digits, tail)) => Some(PrUrlMatch(secure, dot, owner, repo, digits, tail))
  }

  /** Every well-formed match is found again in the string it renders to. */
  lemma MatchPrUrlComplete(m: PrUrlMatch)
    requires WellFormed(m)
    ensures MatchPrUrl(Render(m)) == Some(m)
  {
    var number := m.digits + m.tail;
    var afterRepo := "pull/" + number;
    var afterOwner := m.repo + "/" + afterRepo;
    var path := m.owner + "/" + afterOwner;
    var afterScheme := "://github" + [m.hostDot] + "com/" + path;
    MatchSchemeOf(m.secure, afterScheme);
    MatchHostOf(m.hostDot, path);
    MatchSegmentOf(m.owner, afterOwner);
    MatchSegmentOf(m.repo, afterRepo);
    MatchPullOf(number);
    MatchDigitsOf(m.digits, m.tail);
  }

  /** parse_pr_url: the owner, repo and number of a PR URL, or None. */
  function ParsePrUrl(u: string): (r: Option<(string, string, int)>)
    ensures r.Some? ==> r.value.0 != [] && '/' !in r.value.0
    ensures r.Some? ==> r.value.1 != [] && '/' !in r.value.1
    ensures r.Some? ==> r.value.2 >= 0
    ensures r.None? <==> MatchPrUrl(u).None?
  {
    match MatchPrUrl(u)
    case None => None
    case Some(m) => Some((m.owner, m.repo, DigitsValue(m.digits) as int))
  }

  /** A github.com PR URL with anything after its number that is not a digit parses to its parts. */
  lemma ParsePrUrlOfParts(owner: string, repo: string, digits: string, tail: string)
    requires owner != [] && '/' !in owner
    requires repo != [] && '/' !in repo
    requires digits != [] && AllDigits(digits)
    requires tail == [] || !IsDigit(tail[0])
    ensures ParsePrUrl("https://github.com/" + owner + "/" + repo + "/pull/" + digits + tail)
         == Some((owner, repo, DigitsValue(digits) as int))
  {
    var m := PrUrlMatch(true, '.', owner, repo, digits, tail);
    assert Render(m) == "https://github.com/" + owner + "/" + repo + "/pull/" + digits + tail;
    MatchPrUrlComplete(m);
  }

  /**
   * Every URL the regex accepts (either scheme, any character for the dot,
   * any tail that does not continue the digits) parses to the match's groups.
   */
  lemma ParsePrUrlOfMatch(m: PrUrlMatch)
    requires WellFormed(m)
    ensures ParsePrUrl(Render(m)) == Some((m.owner, m.repo, DigitsValue(m.digits) as int))
  {
    MatchPrUrlComplete(m);
  }

  /** The URL enrich_pr synthesises when the PR object has none. */
  function FallbackUrl(owner: string, repo: string, number: int): string {
    "https://github.com/" + owner + "/" + repo + "/pull/" + IntToString(number)
  }

  /** The synthesised URL parses back to the triple it was built from. */
  lemma FallbackUrlRoundTrip(owner: string, repo: string, number: int)
    requires owner != [] && '/' !in owner
    requires repo != [] && '/' !in repo
    requires number >= 0
    ensures ParsePrUrl(FallbackUrl(owner, repo, number)) == Some((owner, repo, number))
  {
    ParsePrUrlOfParts(owner, repo, IntToString(number), "");
    assert FallbackUrl(owner, repo, number)
        == "https://github.com/" + owner + "/" + repo + "/pull/" + IntToString(number) + "";
  }

  // ---------------------------------------------------------------- enrich_pr

  /** A decoded JSON response: a list, or some other value (an object, say). */
  datatype Fetched<T> = AsList(items: seq<T>) | NotAList

  /** One entry of the changed-files list; only its filename is read. */
  datatype FileEntry = FileEntry(filename: Option<string>)

  datatype GhUser = GhUser(login: Option<string>)

  /** The fields of the fetched PR object that enrich_pr reads. */
  datatype GhPr = GhPr(
    title: Option<string>,
    user: Option<GhUser>,
    state: Option<string>,
    htmlUrl: Option<string>,
    createdAt: Option<string>,
    updatedAt: Option<string>,
    mergedAt: Option<string>,
    additions: Option<int>,
    deletions: Option<int>,
    changedFiles: Option<int>,
    draft: Option<bool>)

  /** The record enrich_pr returns. */
  datatype EnrichedPr = EnrichedPr(
    id: string,
    owner: string,
    repo: string,
    number: int,
    title: Option<string>,
    author: Option<string>,
    state: Option<string>,
    htmlUrl: string,
    createdAt: Option<string>,
    updatedAt: Option<string>,
    mergedAt: Option<string>,
    additions: Option<int>,
    deletions: Option<int>,
    changedFiles: Option<int>,
    draft: int,
    reviewCount: nat,
    ciStatus: string,
    hasTests: int,
    docTouchRatio: real,
    diffStats: Option<string>)

  const TestMarkers: seq<string> := ["test/", "/test/", "tests/", ".spec.", ".test."]
  const DocMarkers: seq<string> := ["readme", "docs/", "/docs/", ".md", ".rst"]

  /** Some marker occurs in `s`. */
  predicate MentionsAny(s: string, markers: seq<string>) {
    exists i :: 0 <= i < |markers| && Contains(s, markers[i])
  }

  /** The lower-cased filename of an entry; a missing filename reads as "". */
  function LowerName(f: FileEntry): string {
    ToLower(f.filename.GetOr(""))
  }

  predicate IsTestFile(f: FileEntry) {
    MentionsAny(LowerName(f), TestMarkers)
  }

  predicate IsDocFile(f: FileEntry) {
    MentionsAny(LowerName(f), DocMarkers)
  }

  /** Some changed file looks like a test. */
  predicate AnyTestFile(files: seq<FileEntry>) {
    exists i :: 0 <= i < |files| && IsTestFile(files[i])
  }

  /** How many changed files look like documentation. */
  function CountDocFiles(files: seq<FileEntry>): (n: nat)
    ensures n <= |files|
  {
    if files == [] then 0
    else CountDocFiles(files[..|files| - 1]) + (if IsDocFile(files[|files| - 1]) then 1 else 0)
  }

  /** Extending the scanned prefix by one file. */
  lemma FileStep(items: seq<FileEntry>, k: nat)
    requires k < |items|
    ensures AnyTestFile(items[..k + 1]) <==> AnyTestFile(items[..k]) || IsTestFile(items[k])
    ensures CountDocFiles(items[..k + 1]) == CountDocFiles(items[..k]) + (if IsDocFile(items[k]) then 1 else 0)
  {
    assert items[..k + 1][..k] == items[..k];
    assert items[..k + 1][k] == items[k];
  }

  /** The loop over the changed files: the test flag, the doc count and the file count. */
  method FileHeuristics(files: Fetched<FileEntry>) returns (hasTests: bool, docTouches: nat, fileCount: nat)
    ensures hasTests <==> files.AsList? && AnyTestFile(files.items)
    ensures docTouches == (if files.AsList? then CountDocFiles(files.items) else 0)
    ensures fileCount == (if files.AsList? then |files.items| else 0)
  {
    hasTests, docTouches, fileCount := false, 0, 0;
    if files.AsList? {
      var items := files.items;
      while fileCount < |items|
        invariant fileCount <= |items|
        invariant hasTests <==> AnyTestFile(items[..fileCount])
        invariant docTouches == CountDocFiles(items[..fileCount])
      {
        var f := items[fileCount];
        FileStep(items, fileCount);
        var lower := ToLower(f.filename.GetOr(""));
        assert lower == LowerName(f);
        if MentionsAny(lower, TestMarkers) {
          hasTests := true || hasTests;
        }
        if MentionsAny(lower, DocMarkers) {
          docTouches := docTouches + 1;
        }
        fileCount := fileCount + 1;
      }
      assert items[..fileCount] == items;
    }
  }

  /** `doc_touches / file_count`, or 0.0 with no files. */
  function DocTouchRatio(docTouches: nat, fileCount: nat): (r: real)
    ensures docTouches <= fileCount ==> 0.0 <= r <= 1.0
    ensures fileCount == 0 ==> r == 0.0
  {
    if fileCount != 0 then docTouches as real / fileCount as real else 0.0
  }

  /** `len(reviews) if isinstance(reviews, list) else 0`. */
  function ReviewCount<R>(reviews: Fetched<R>): nat {
    if reviews.AsList? then |reviews.items| else 0
  }

  /** The `"{owner}/{repo}#{number}"` key shared by the enricher and the store. */
  function PrKey(owner: string, repo: string, number: int): string {
    owner + "/" + repo + "#" + IntToString(number)
  }

  /** The record built once the heuristics are known. */
  function BuildRecord(owner: string, repo: string, number: int, pr: Option<GhPr>,
                       hasTests: bool, docTouchRatio: real, reviewCount: nat): EnrichedPr
  {
    var present := pr.Some?;
    EnrichedPr(
      PrKey(owner, repo, number),
      owner,
      repo,
      number,
      if present then pr.value.title else None,
      if present && pr.value.user.Some? then pr.value.user.value.login else None,
      if present then pr.value.state else None,
      if present && pr.value.htmlUrl.Some? && pr.value.htmlUrl.value != ""
        then pr.value.htmlUrl.value else FallbackUrl(owner, repo, number),
      if present then pr.value.createdAt else None,
      if present then pr.value.updatedAt else None,
      if present then pr.value.mergedAt else None,
      if present then pr.value.additions else None,
      if present then pr.value.deletions else None,
      if present then pr.value.changedFiles else None,
      if present && pr.value.draft.GetOr(false) then 1 else 0,
      reviewCount,
      "unknown",
      if hasTests then 1 else 0,
      docTouchRatio,
      None)
  }

  /** What enrich_pr returns for the three fetched values. */
  function Enriched<R>(owner: string, repo: string, number: int, pr: Option<GhPr>,
                       files: Fetched<FileEntry>, reviews: Fetched<R>): (r: EnrichedPr)
    ensures r.id == PrKey(owner, repo, number)
    ensures r.owner == owner && r.repo == repo && r.number == number
    ensures r.ciStatus == "unknown" && r.diffStats.None?
    ensures r.draft in {0, 1} && r.hasTests in {0, 1}
    ensures r.hasTests == 1 <==> files.AsList? && AnyTestFile(files.items)
    ensures 0.0 <= r.docTouchRatio <= 1.0
    ensures files.AsList? && files.items != []
        ==> r.docTouchRatio == CountDocFiles(files.items) as real / |files.items| as real
    ensures files.NotAList? || files.items == [] ==> r.docTouchRatio == 0.0
    ensures r.reviewCount == (if reviews.AsList? then |reviews.items| else 0)
    ensures r.htmlUrl != ""
    ensures pr.Some? ==>
      && r.title == pr.value.title && r.state == pr.value.state
      && r.createdAt == pr.value.createdAt && r.updatedAt == pr.value.updatedAt
      && r.mergedAt == pr.value.mergedAt && r.additions == pr.value.additions
      && r.deletions == pr.value.deletions && r.changedFiles == pr.value.changedFiles
    ensures r.author == (if pr.Some? && pr.value.user.Some? then pr.value.user.value.login else None)
    ensures r.draft == 1 <==> pr.Some? && pr.value.draft == Some(true)
    ensures r.htmlUrl == (if pr.Some? && pr.value.htmlUrl.Some? && pr.value.htmlUrl.value != ""
                          then pr.value.htmlUrl.value else FallbackUrl(owner, repo, number))
  {
    var items := if files.AsList? then files.items else [];
    BuildRecord(owner, repo, number, pr,
      files.AsList? && AnyTestFile(files.items),
      DocTouchRatio(CountDocFiles(items), |items|),
      ReviewCount(reviews))
  }

  /** enrich_pr, after its three fetches. */
  method EnrichPr<R>(owner: string, repo: string, number: int, pr: Option<GhPr>,
                     files: Fetched<FileEntry>, reviews: Fetched<R>) returns (data: EnrichedPr)
    ensures data == Enriched(owner, repo, number, pr, files, reviews)
  {
    var reviewCount := ReviewCount(reviews);
    var hasTests, docTouches, fileCount := FileHeuristics(files);
    var docTouchRatio := DocTouchRatio(docTouches, fileCount);
    data := BuildRecord(owner, repo, number, pr, hasTests, docTouchRatio, reviewCount);
  }

  /** Without a PR object every fetched field is null and the URL is synthesised. */
  lemma EnrichedWithoutPr<R>(owner: string, repo: string, number: int,
                             files: Fetched<FileEntry>, reviews: Fetched<R>)
    ensures var r := Enriched(owner, repo, number, None, files, reviews);
      && r.title.None? && r.author.None? && r.state.None?
      && r.createdAt.None? && r.updatedAt.None? && r.mergedAt.None?
      && r.additions.None? && r.deletions.None? && r.changedFiles.None?
      && r.draft == 0
      && r.htmlUrl == FallbackUrl(owner, repo, number)
  {
  }

  /** A degraded record's URL still names the PR it was built for. */
  lemma EnrichedUrlNamesPr<R>(owner: string, repo: string, number: int,
                              files: Fetched<FileEntry>, reviews: Fetched<R>)
    requires owner != [] && '/' !in owner
    requires repo != [] && '/' !in repo
    requires number >= 0
    ensures ParsePrUrl(Enriched(owner, repo, number, None, files, reviews).htmlUrl)
         == Some((owner, repo, number))
  {
    FallbackUrlRoundTrip(owner, repo, number);
  }

  /** The `/test/` marker adds nothing: any name holding it also holds `test/`. */
  lemma SlashTestMarkerSubsumed(s: string)
    requires Contains(s, "/test/")
    ensures Contains(s, "test/")
  {
    var i := FindFirst(s, "/test/").value;
    assert s[i + 1..i + 6] == s[i..i + 6][1..];
    assert OccursAt(s, "test/", i + 1);
  }
}

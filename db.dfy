/**
 * The PR store: resolving a record's key (`owner/repo#number`, a GitHub URL,
 * or the legacy `repo#number`), normalising its fields into a row, and the
 * `INSERT ... ON CONFLICT(id) DO UPDATE` upsert, with the table modelled as a
 * map from id to row held by a class.
 */
module Db {
  import opened Wrappers
  import opened Text
  import opened GitHub

  /**
   * The keys upsert_pr reads from its input mapping; None is a missing key
   * or null.  `diffStats` is taken to be already a (JSON) string.
   */
  datatype PrInput = PrInput(
    id: Option<string>,
    owner: Option<string>,
    repo: Option<string>,
    number: Option<int>,
    htmlUrl: Option<string>,
    url: Option<string>,
    title: Option<string>,
    author: Option<string>,
    user: Option<GhUser>,
    state: Option<string>,
    createdAt: Option<string>,
    updatedAt: Option<string>,
    mergedAt: Option<string>,
    additions: Option<int>,
    deletions: Option<int>,
    changedFiles: Option<int>,
    filesCount: Option<int>,
    draft: Option<bool>,
    reviewCount: Option<int>,
    reviewComments: Option<int>,
    ciStatus: Option<string>,
    hasTests: Option<bool>,
    docTouchRatio: Option<real>,
    diffStats: Option<string>)

  /** The empty mapping `{}`. */
  const EmptyInput := PrInput(None, None, None, None, None, None, None, None, None, None, None, None,
    None, None, None, None, None, None, None, None, None, None, None, None)

  /** One row of the `prs` table. */
  datatype PrRow = PrRow(
    id: string,
    owner: Option<string>,
    repo: Option<string>,
    number: Option<int>,
    title: Option<string>,
    author: Option<string>,
    state: Option<string>,
    htmlUrl: Option<string>,
    createdAt: Option<string>,
    updatedAt: Option<string>,
    mergedAt: Option<string>,
    additions: int,
    deletions: int,
    changedFiles: int,
    draft: int,
    reviewCount: int,
    ciStatus: string,
    hasTests: int,
    docTouchRatio: real,
    diffStats: Option<string>)

  /** Python truthiness of an optional string: present and non-empty. */
  predicate Truthy(s: Option<string>) {
    s.Some? && s.value != ""
  }

  /** Python's `a or b` on optional strings. */
  function OrStr(a: Option<string>, b: Option<string>): (r: Option<string>)
    ensures Truthy(r) <==> Truthy(a) || Truthy(b)
    ensures Truthy(a) ==> r == a
  {
    if Truthy(a) then a else b
  }

  /** Python's `a or b` on optional integers. */
  function OrInt(a: Option<int>, b: Option<int>): (r: Option<int>)
    ensures (r.Some? && r.value != 0) <==> (a.Some? && a.value != 0) || (b.Some? && b.value != 0)
    ensures a.Some? && a.value != 0 ==> r == a
  {
    if a.Some? && a.value != 0 then a else b
  }

  /** `1 if flag else 0`. */
  function Flag(b: Option<bool>): (r: int)
    ensures r in {0, 1}
    ensures r == 1 <==> b == Some(true)
  {
    if b.GetOr(false) then 1 else 0
  }

  /** The message of the ValueError raised when no key can be resolved. */
  const MissingIdentity := "upsert_pr requires 'id' or resolvable owner/repo/number (or a GitHub PR URL)."

  // ------------------------------------------------------------ identity

  /**
   * The URL fallback: `url.split("github.com/")[1].split("/pull/")`, the
   * owner/repo piece split once at "/", and `int` of the text up to the next
   * "/".  None stands for any exception the `try` swallows: a missing piece
   * (IndexError), a number that is not a digit string, or an owner/repo piece
   * without "/" (ValueError).
   */
  function UrlParts(url: string): (r: Option<(string, string, int)>)
    ensures r.Some? ==> '/' !in r.value.0 && r.value.2 >= 0
  {
    match After(url, "github.com/")
    case None => None
    case Some(afterHost) =>
      var piece := Before(afterHost, "github.com/");
      var orgRepo := Before(piece, "/pull/");
      match After(piece, "/pull/")
      case None => None
      case Some(afterPull) =>
        var numText := Before(Before(afterPull, "/pull/"), "/");
        if numText == [] || !AllDigits(numText) then None
        else
          match After(orgRepo, "/")
          case None => None
          case Some(repo) =>
            BeforeCharFree(orgRepo, '/');
            Some((Before(orgRepo, "/"), repo, DigitsValue(numText) as int))
  }

  /** Parsed parts occur in the URL as "github.com/{owner}/{repo}/pull/". */
  lemma UrlPartsLocated(url: string)
    requires UrlParts(url).Some?
    ensures var (owner, repo, _) := UrlParts(url).value;
      Contains(url, "github.com/" + owner + "/" + repo + "/pull/")
  {
    var afterHost := After(url, "github.com/").value;
    var piece := Before(afterHost, "github.com/");
    var orgRepo := Before(piece, "/pull/");
    var afterPull := After(piece, "/pull/").value;
    var owner, repo := Before(orgRepo, "/"), After(orgRepo, "/").value;
    assert UrlParts(url).value.0 == owner && UrlParts(url).value.1 == repo;
    var front := Before(url, "github.com/");
    var back := afterHost[|piece|..];
    Spliced(url, front, afterHost, piece, back, orgRepo, afterPull, owner, repo);
  }

  /** Re-associating the pieces the URL fallback splits a URL into. */
  lemma Spliced(url: string, front: string, afterHost: string, piece: string, back: string,
                orgRepo: string, afterPull: string, owner: string, repo: string)
    requires url == front + "github.com/" + afterHost
    requires |piece| <= |afterHost| && piece == afterHost[..|piece|] && back == afterHost[|piece|..]
    requires piece == orgRepo + "/pull/" + afterPull
    requires orgRepo == owner + "/" + repo
    ensures Contains(url, "github.com/" + owner + "/" + repo + "/pull/")
  {
    var mid := "github.com/" + owner + "/" + repo + "/pull/";
    assert afterHost == piece + back;
    assert url == front + mid + (afterPull + back);
    ContainsMiddle(front, mid, afterPull + back);
  }

  /** No id, and some identity part is None: the URL step is attempted. */
  predicate NeedsUrl(row: PrInput) {
    !Truthy(row.id) && (row.owner.None? || row.repo.None? || row.number.None?)
  }

  /** `html_url or url`. */
  function RowUrl(row: PrInput): Option<string> {
    OrStr(row.htmlUrl, row.url)
  }

  /** The string test guarding the `try`. */
  predicate LooksLikePrUrl(url: Option<string>) {
    url.Some? && Contains(url.value, "github.com") && Contains(url.value, "/pull/")
  }

  /**
   * The URL step: when it is attempted on a URL that passes the test and the
   * parse succeeds, all three parts come from the URL; otherwise none change.
   */
  function ResolveParts(row: PrInput): (parts: (Option<string>, Option<string>, Option<int>))
    ensures Truthy(row.id) || (row.owner.Some? && row.repo.Some? && row.number.Some?)
      ==> parts == (row.owner, row.repo, row.number)
    ensures NeedsUrl(row) && LooksLikePrUrl(RowUrl(row)) && UrlParts(RowUrl(row).value).Some?
      ==> var p := UrlParts(RowUrl(row).value).value;
          parts == (Some(p.0), Some(p.1), Some(p.2))
    ensures !(NeedsUrl(row) && LooksLikePrUrl(RowUrl(row)) && UrlParts(RowUrl(row).value).Some?)
      ==> parts == (row.owner, row.repo, row.number)
  {
    var original := (row.owner, row.repo, row.number);
    if (row.owner.None? || row.repo.None? || row.number.None?) && !Truthy(row.id) then
      var url := OrStr(row.htmlUrl, row.url);
      if url.Some? && Contains(url.value, "github.com") && Contains(url.value, "/pull/") then
        match UrlParts(url.value)
        case Some((owner, repo, number)) => (Some(owner), Some(repo), Some(number))
        case None => original
      else original
    else original
  }

  /** The `(id, owner, repo, number)` _normalize_pr_identity returns. */
  datatype Identity = Identity(id: string, owner: Option<string>, repo: Option<string>, number: Option<int>)

  /** _normalize_pr_identity; Err is the ValueError. */
  function NormalizeIdentity(row: PrInput): (r: Result<Identity, string>)
    ensures Truthy(row.id) ==> r == Ok(Identity(row.id.value, row.owner, row.repo, row.number))
    ensures !Truthy(row.id) && Truthy(row.owner) && Truthy(row.repo) && row.number.Some?
      ==> r == Ok(Identity(PrKey(row.owner.value, row.repo.value, row.number.value),
                           row.owner, row.repo, row.number))
    ensures var (owner, repo, number) := ResolveParts(row);
      && (r.Ok? ==> r.value.id != "" && (r.value.owner, r.value.repo, r.value.number) == (owner, repo, number))
      && (r.Err? <==> !Truthy(row.id) && (number.None? || (!(Truthy(owner) && Truthy(repo)) && !Truthy(row.repo))))
      && (!Truthy(row.id) && number.Some? && !(Truthy(owner) && Truthy(repo)) && Truthy(row.repo)
          ==> r == Ok(Identity(row.repo.value + "#" + IntToString(number.value), owner, repo, number)))
    ensures var (owner, repo, number) := ResolveParts(row);
      !Truthy(row.id) && Truthy(owner) && Truthy(repo) && number.Some?
      ==> r == Ok(Identity(PrKey(owner.value, repo.value, number.value), owner, repo, number))
    ensures r.Err? ==> r.error == MissingIdentity
  {
    var (owner, repo, number) := ResolveParts(row);
    if Truthy(row.id) then Ok(Identity(row.id.value, owner, repo, number))
    else if Truthy(owner) && Truthy(repo) && number.Some? then
      Ok(Identity(PrKey(owner.value, repo.value, number.value), owner, repo, number))
    else if Truthy(row.repo) && number.Some? then
      Ok(Identity(row.repo.value + "#" + IntToString(number.value), owner, repo, number))
    else Err(MissingIdentity)
  }

  /** No "/pull/" starts inside "{owner}/{repo}" unless the repo is itself "pull". */
  lemma NoEarlyPull(owner: string, repo: string, digits: string)
    requires '/' !in owner && '/' !in repo && repo != "pull"
    ensures forall j :: 0 <= j < |owner| + 1 + |repo| ==> !OccursAt(owner + "/" + repo + "/pull/" + digits, "/pull/", j)
  {
    forall j | 0 <= j < |owner| + 1 + |repo|
      ensures !OccursAt(owner + "/" + repo + "/pull/" + digits, "/pull/", j)
    {
      NoPullAt(owner, repo, digits, j);
    }
  }

  /** NoEarlyPull at one index. */
  lemma NoPullAt(owner: string, repo: string, digits: string, j: nat)
    requires '/' !in owner && '/' !in repo && repo != "pull"
    requires j < |owner| + 1 + |repo|
    ensures !OccursAt(owner + "/" + repo + "/pull/" + digits, "/pull/", j)
  {
    var s := owner + "/" + repo + "/pull/" + digits;
    var p := |owner| + 1 + |repo|;
    if j + 6 <= |s| {
      var w := s[j..j + 6];
      var head := owner + "/" + repo;
      assert s == head + "/pull/" + digits;
      assert w[0] == s[j] == head[j];
      if j < |owner| {
        assert head[j] == owner[j] && owner[j] in owner;
      } else if j > |owner| {
        var r := j - |owner| - 1;
        assert head[j] == repo[r] && repo[r] in repo;
      } else if |repo| > 4 {
        assert w[5] == s[j + 5] == head[j + 5] == repo[4] && repo[4] in repo;
      } else if |repo| == 4 {
        var k :| 0 <= k < 4 && repo[k] != "pull"[k];
        assert w[1 + k] == s[j + 1 + k] == head[j + 1 + k] == repo[k];
        assert "/pull/"[1 + k] == "pull"[k];
      } else {
        assert w[p - j] == s[p] == '/';
      }
    }
  }

  /** No "github.com/" starts within the scheme and host of a fallback URL. */
  lemma NoEarlyHost(rest: string)
    ensures forall j :: 0 <= j < 8 ==> !OccursAt("https://github.com/" + rest, "github.com/", j)
  {
    var url := "https://github.com/" + rest;
    assert url[..14] == "https://github";
    forall j | 0 <= j < 8
      ensures !OccursAt(url, "github.com/", j)
    {
      assert url[j + 6] == url[..14][j + 6];
      assert url[j..j + 11][6] == url[j + 6];
    }
  }

  /** A digit string holds no "/". */
  lemma DigitsSlashFree(digits: string)
    requires AllDigits(digits)
    ensures '/' !in digits
  {
    forall i | 0 <= i < |digits|
      ensures digits[i] != '/'
    {
      assert IsDigit(digits[i]);
    }
  }

  /** The host split of a URL whose path does not mention "github.com/". */
  lemma HostSplit(rest: string)
    requires !Contains(rest, "github.com/")
    ensures After("https://github.com/" + rest, "github.com/") == Some(rest)
    ensures Before(rest, "github.com/") == rest
  {
    assert "https://github.com/" + rest == "https://" + "github.com/" + rest;
    NoEarlyHost(rest);
    SplitAt("https://", "github.com/", rest);
  }

  /** The "/pull/" split of "{owner}/{repo}/pull/{digits}". */
  lemma PullSplit(owner: string, repo: string, digits: string)
    requires '/' !in owner && '/' !in repo && repo != "pull"
    ensures Before(owner + "/" + repo + "/pull/" + digits, "/pull/") == owner + "/" + repo
    ensures After(owner + "/" + repo + "/pull/" + digits, "/pull/") == Some(digits)
  {
    NoEarlyPull(owner, repo, digits);
    SplitAt(owner + "/" + repo, "/pull/", digits);
  }

  /** The single split of "{owner}/{repo}" at its first "/". */
  lemma OwnerSplit(owner: string, repo: string)
    requires '/' !in owner
    ensures Before(owner + "/" + repo, "/") == owner
    ensures After(owner + "/" + repo, "/") == Some(repo)
  {
    forall j | 0 <= j < |owner|
      ensures !OccursAt(owner + "/" + repo, "/", j)
    {
      assert (owner + "/" + repo)[j..j + 1] == [owner[j]];
    }
    SplitAt(owner, "/", repo);
  }

  /**
   * The number text after "/pull/" is the digits, when what follows them is
   * empty or a further path segment without another "/pull/".
   */
  lemma NumberOfPath(digits: string, tail: string)
    requires AllDigits(digits)
    requires tail == [] || tail[0] == '/'
    requires !Contains(tail, "/pull/")
    ensures Before(Before(digits + tail, "/pull/"), "/") == digits
  {
    DigitsSlashFree(digits);
    var s := digits + tail;
    forall j | 0 <= j < |s|
      ensures !OccursAt(s, "/pull/", j)
    {
      if j + 6 <= |s| {
        if j < |digits| {
          assert s[j..j + 6][0] == digits[j];
        } else {
          assert s[j..j + 6] == tail[j - |digits|..j - |digits| + 6];
          assert !OccursAt(tail, "/pull/", j - |digits|);
        }
      }
    }
    BeforeMissing(s, "/pull/");
    if tail == [] {
      assert s == digits;
      MissingChar(digits, "/", 0);
      BeforeMissing(digits, "/");
    } else {
      assert s == digits + "/" + tail[1..];
      forall j | 0 <= j < |digits|
        ensures !OccursAt(digits + "/" + tail[1..], "/", j)
      {
        assert s[j..j + 1] == [digits[j]];
      }
      SplitAt(digits, "/", tail[1..]);
    }
  }

  /** UrlParts in terms of the results of its splits. */
  lemma UrlPartsFromSplits(url: string, afterHost: string, owner: string, repo: string, afterPull: string, digits: string)
    requires After(url, "github.com/") == Some(afterHost)
    requires Before(afterHost, "github.com/") == afterHost
    requires Before(afterHost, "/pull/") == owner + "/" + repo
    requires After(afterHost, "/pull/") == Some(afterPull)
    requires Before(Before(afterPull, "/pull/"), "/") == digits
    requires digits != [] && AllDigits(digits) && '/' !in owner
    ensures UrlParts(url) == Some((owner, repo, DigitsValue(digits) as int))
  {
    OwnerSplit(owner, repo);
  }

  /**
   * The URL fallback on a PR URL, possibly followed by further path segments
   * such as "/files": owner, repo and number are read back, whatever comes
   * before the first "github.com/" (any scheme, or none), provided the path
   * does not mention "github.com/" again, the repository is not itself named
   * "pull", and the tail holds no second "/pull/".
   */
  lemma UrlPartsOfPath(front: string, owner: string, repo: string, digits: string, tail: string, path: string)
    requires forall j :: 0 <= j < |front| ==> !OccursAt(front + "github.com/" + path, "github.com/", j)
    requires '/' !in owner && '/' !in repo && repo != "pull"
    requires digits != [] && AllDigits(digits)
    requires tail == [] || tail[0] == '/'
    requires !Contains(tail, "/pull/")
    requires path == owner + "/" + repo + "/pull/" + digits + tail
    requires !Contains(path, "github.com/")
    ensures UrlParts(front + "github.com/" + path) == Some((owner, repo, DigitsValue(digits) as int))
  {
    assert path == owner + "/" + repo + "/pull/" + (digits + tail);
    SplitAt(front, "github.com/", path);
    PathSplit(owner, repo, digits + tail, path);
    NumberOfPath(digits, tail);
    UrlPartsFromSplits(front + "github.com/" + path, path, owner, repo, digits + tail, digits);
  }

  /** A plain-http PR URL, with or without further path segments, is read back like an https one. */
  lemma UrlPartsOfHttp(owner: string, repo: string, digits: string, tail: string, path: string)
    requires '/' !in owner && '/' !in repo && repo != "pull"
    requires digits != [] && AllDigits(digits)
    requires tail == [] || tail[0] == '/'
    requires !Contains(tail, "/pull/")
    requires path == owner + "/" + repo + "/pull/" + digits + tail
    requires !Contains(path, "github.com/")
    ensures UrlParts("http://" + "github.com/" + path) == Some((owner, repo, DigitsValue(digits) as int))
  {
    HttpFrontClear(path);
    UrlPartsOfPath("http://", owner, repo, digits, tail, path);
  }

  /** No "github.com/" starts inside the scheme "http://". */
  lemma HttpFrontClear(path: string)
    ensures forall j :: 0 <= j < 7 ==> !OccursAt("http://" + "github.com/" + path, "github.com/", j)
  {
    var url := "http://" + "github.com/" + path;
    forall j | 0 <= j < 7
      ensures !OccursAt(url, "github.com/", j)
    {
      assert url[..13] == "http://github";
      assert url[j + 6] == url[..13][j + 6];
      assert url[j..j + 11][6] == url[j + 6];
    }
  }

  /** The URL fallback reads back the triple of a URL enrich_pr synthesises. */
  lemma UrlPartsOfFallback(owner: string, repo: string, number: int)
    requires '/' !in owner && '/' !in repo && repo != "pull" && number >= 0
    requires !Contains(owner + "/" + repo + "/pull/" + IntToString(number), "github.com/")
    ensures UrlParts(FallbackUrl(owner, repo, number)) == Some((owner, repo, number))
  {
    var digits := IntToString(number);
    var path := owner + "/" + repo + "/pull/" + digits;
    assert !Contains("", "/pull/");
    assert path == path + "";
    NoEarlyHost(path);
    assert "https://github.com/" + path == "https://" + "github.com/" + path;
    UrlPartsOfPath("https://", owner, repo, digits, "", path);
    UrlOfPath(owner, repo, number, path);
  }

  /** The synthesised URL is the host followed by its path. */
  lemma UrlOfPath(owner: string, repo: string, number: int, path: string)
    requires path == owner + "/" + repo + "/pull/" + IntToString(number)
    ensures FallbackUrl(owner, repo, number) == "https://github.com/" + path
  {
  }

  /** PullSplit, stated for the path as it is spelled out in the URL. */
  lemma PathSplit(owner: string, repo: string, afterPull: string, rest: string)
    requires '/' !in owner && '/' !in repo && repo != "pull"
    requires rest == owner + "/" + repo + "/pull/" + afterPull
    ensures Before(rest, "/pull/") == owner + "/" + repo
    ensures After(rest, "/pull/") == Some(afterPull)
  {
    PullSplit(owner, repo, afterPull);
  }

  /**
   * In a repository named "pull" the first "/pull/" is the repository's own,
   * so the number text is "pull", `int` raises, and nothing is parsed.
   */
  lemma RepoNamedPullNotParsed(owner: string, number: int)
    requires '/' !in owner && number >= 0
    requires !Contains(owner + "/pull/pull/" + IntToString(number), "github.com/")
    ensures UrlParts(FallbackUrl(owner, "pull", number)) == None
  {
    var afterPull := "pull/" + IntToString(number);
    var rest := owner + "/pull/" + afterPull;
    assert rest == owner + "/" + "pull" + "/pull/" + IntToString(number);
    assert rest == owner + "/pull/pull/" + IntToString(number);
    UrlOfPath(owner, "pull", number, rest);
    PullRepoNotParsed(owner, afterPull, rest);
  }

  /** RepoNamedPullNotParsed for the path after the host, held in one variable. */
  lemma PullRepoNotParsed(owner: string, afterPull: string, rest: string)
    requires '/' !in owner && afterPull != [] && afterPull[0] == 'p'
    requires rest == owner + "/pull/" + afterPull
    requires !Contains(rest, "github.com/")
    ensures UrlParts("https://github.com/" + rest) == None
  {
    HostSplit(rest);
    OwnerPullSplit(owner, afterPull);
    NotDigitsAfter(afterPull);
    UrlPartsNoneFromSplits("https://github.com/" + rest, rest, afterPull);
  }

  /** UrlParts is None when the number text its splits find is not a digit run. */
  lemma UrlPartsNoneFromSplits(url: string, afterHost: string, afterPull: string)
    requires After(url, "github.com/") == Some(afterHost)
    requires Before(afterHost, "github.com/") == afterHost
    requires After(afterHost, "/pull/") == Some(afterPull)
    requires var numText := Before(Before(afterPull, "/pull/"), "/"); numText == [] || !AllDigits(numText)
    ensures UrlParts(url) == None
  {
  }

  /** The "/pull/" split of "{owner}/pull/{rest}" is right after the owner. */
  lemma OwnerPullSplit(owner: string, rest: string)
    requires '/' !in owner
    ensures After(owner + "/pull/" + rest, "/pull/") == Some(rest)
  {
    var s := owner + "/pull/" + rest;
    forall j | 0 <= j < |owner|
      ensures !OccursAt(s, "/pull/", j)
    {
      if j + 6 <= |s| {
        assert s[j..j + 6][0] == owner[j];
      }
    }
    SplitAt(owner, "/pull/", rest);
  }

  /** A text starting with a letter never yields a non-empty digit run as its number text. */
  lemma NotDigitsAfter(rest: string)
    requires rest != [] && rest[0] == 'p'
    ensures var numText := Before(Before(rest, "/pull/"), "/"); numText == [] || !AllDigits(numText)
  {
    var cut := Before(rest, "/pull/");
    var numText := Before(cut, "/");
    if numText != [] {
      assert numText[0] == cut[0] == rest[0];
      assert !IsDigit(numText[0]);
    }
  }

  /** A synthesised PR URL passes the "github.com" and "/pull/" membership tests. */
  lemma FallbackUrlMentions(owner: string, repo: string, number: int)
    ensures Contains(FallbackUrl(owner, repo, number), "github.com")
    ensures Contains(FallbackUrl(owner, repo, number), "/pull/")
  {
    var path := owner + "/" + repo + "/pull/" + IntToString(number);
    HostMentioned(path);
    assert FallbackUrl(owner, repo, number) == "https://github.com/" + path;
    ContainsMiddle("https://github.com/" + owner + "/" + repo, "/pull/", IntToString(number));
  }

  /** Any path under the GitHub host mentions "github.com". */
  lemma HostMentioned(path: string)
    ensures Contains("https://github.com/" + path, "github.com")
  {
    var host := "https://github.com/";
    assert host == "https://" + "github.com" + "/";
    assert host + path == "https://" + "github.com" + ("/" + path);
    ContainsMiddle("https://", "github.com", "/" + path);
  }

  /** A row holding nothing but the enricher's synthesised URL gets the enricher's key. */
  lemma UrlOnlyRowGetsPrKey(owner: string, repo: string, number: int)
    requires owner != [] && '/' !in owner
    requires repo != [] && '/' !in repo && repo != "pull"
    requires number >= 0
    requires !Contains(owner + "/" + repo + "/pull/" + IntToString(number), "github.com/")
    ensures NormalizeIdentity(EmptyInput.(htmlUrl := Some(FallbackUrl(owner, repo, number))))
         == Ok(Identity(PrKey(owner, repo, number), Some(owner), Some(repo), Some(number)))
  {
    var row := EmptyInput.(htmlUrl := Some(FallbackUrl(owner, repo, number)));
    UrlPartsOfFallback(owner, repo, number);
    FallbackUrlMentions(owner, repo, number);
    assert ResolveParts(row) == (Some(owner), Some(repo), Some(number));
  }

  /** A PR in a repository named "pull" cannot be keyed from its URL alone. */
  lemma RepoNamedPullNotKeyed(owner: string, number: int)
    requires '/' !in owner && number >= 0
    requires !Contains(owner + "/pull/pull/" + IntToString(number), "github.com/")
    ensures NormalizeIdentity(EmptyInput.(htmlUrl := Some(FallbackUrl(owner, "pull", number))))
         == Err(MissingIdentity)
  {
    var row := EmptyInput.(htmlUrl := Some(FallbackUrl(owner, "pull", number)));
    RepoNamedPullNotParsed(owner, number);
    assert ResolveParts(row) == (None, None, None);
  }

  // ------------------------------------------------------------ rows

  /** What every stored row satisfies. */
  predicate RowInvariant(row: PrRow) {
    && row.id != ""
    && row.draft in {0, 1}
    && row.hasTests in {0, 1}
    && row.ciStatus != ""
    && (Truthy(row.mergedAt) ==> row.state == Some("merged"))
  }

  /** The field normalisation of upsert_pr; Err is the ValueError of the key. */
  function NormalizeRow(input: PrInput): (r: Result<PrRow, string>)
    ensures r.Err? <==> NormalizeIdentity(input).Err?
    ensures r.Err? ==> r.error == MissingIdentity
    ensures r.Ok? ==> RowInvariant(r.value)
    ensures r.Ok? ==> var ident := NormalizeIdentity(input).value;
      && r.value.id == ident.id
      && (r.value.owner, r.value.repo, r.value.number) == (ident.owner, ident.repo, ident.number)
    ensures r.Ok? ==> var row := r.value;
      && row.state == (if Truthy(input.mergedAt) then Some("merged") else input.state)
      && row.author == (if Truthy(input.author) then input.author
                        else if input.user.Some? then input.user.value.login else None)
      && row.htmlUrl == OrStr(input.htmlUrl, input.url)
      && row.changedFiles == OrInt(input.changedFiles, input.filesCount).GetOr(0)
      && row.reviewCount == OrInt(input.reviewCount, input.reviewComments).GetOr(0)
      && (row.draft == 1 <==> input.draft == Some(true))
      && (row.hasTests == 1 <==> input.hasTests == Some(true))
      && row.ciStatus == (if Truthy(input.ciStatus) then input.ciStatus.value else "unknown")
    ensures r.Ok? ==> var row := r.value;
      && row.additions == input.additions.GetOr(0)
      && row.deletions == input.deletions.GetOr(0)
      && row.docTouchRatio == input.docTouchRatio.GetOr(0.0)
      && row.title == input.title
      && row.createdAt == input.createdAt
      && row.updatedAt == input.updatedAt
      && row.mergedAt == input.mergedAt
      && row.diffStats == input.diffStats
  {
    match NormalizeIdentity(input)
    case Err(e) => Err(e)
    case Ok(ident) =>
      Ok(PrRow(
        ident.id,
        ident.owner,
        ident.repo,
        ident.number,
        input.title,
        OrStr(input.author, if input.user.Some? then input.user.value.login else None),
        if Truthy(input.mergedAt) then Some("merged") else input.state,
        OrStr(input.htmlUrl, input.url),
        input.createdAt,
        input.updatedAt,
        input.mergedAt,
        input.additions.GetOr(0),
        input.deletions.GetOr(0),
        OrInt(input.changedFiles, input.filesCount).GetOr(0),
        Flag(input.draft),
        OrInt(input.reviewCount, input.reviewComments).GetOr(0),
        if Truthy(input.ciStatus) then input.ciStatus.value else "unknown",
        Flag(input.hasTests),
        input.docTouchRatio.GetOr(0.0),
        input.diffStats))
  }

  /** A stored row read back as a mapping: every column, and nothing else. */
  function AsInput(row: PrRow): PrInput {
    PrInput(
      Some(row.id), row.owner, row.repo, row.number, row.htmlUrl, None,
      row.title, row.author, None, row.state, row.createdAt, row.updatedAt, row.mergedAt,
      Some(row.additions), Some(row.deletions), Some(row.changedFiles), None,
      Some(row.draft != 0), Some(row.reviewCount), None,
      Some(row.ciStatus), Some(row.hasTests != 0), Some(row.docTouchRatio), row.diffStats)
  }

  /**
   * Normalising a stored row again gives the same row, unless its author or
   * URL is the empty string (which normalisation turns into null).
   */
  lemma RenormalizeIsIdentity(row: PrRow)
    requires RowInvariant(row)
    requires row.author != Some("") && row.htmlUrl != Some("")
    ensures NormalizeRow(AsInput(row)) == Ok(row)
  {
  }

  /** Normalisation is idempotent: a normalised row is its own normal form. */
  lemma NormalizeIdempotent(input: PrInput)
    requires NormalizeRow(input).Ok?
    requires NormalizeRow(input).value.author != Some("")
    requires NormalizeRow(input).value.htmlUrl != Some("")
    ensures NormalizeRow(AsInput(NormalizeRow(input).value)) == NormalizeRow(input)
  {
    RenormalizeIsIdentity(NormalizeRow(input).value);
  }

  /** The enrich_pr record, handed to upsert_pr as a mapping. */
  function EnrichedInput(e: EnrichedPr): PrInput {
    PrInput(
      Some(e.id), Some(e.owner), Some(e.repo), Some(e.number), Some(e.htmlUrl), None,
      e.title, e.author, None, e.state, e.createdAt, e.updatedAt, e.mergedAt,
      e.additions, e.deletions, e.changedFiles, None,
      Some(e.draft != 0), Some(e.reviewCount), None,
      Some(e.ciStatus), Some(e.hasTests != 0), Some(e.docTouchRatio), e.diffStats)
  }

  /** An enriched record is stored under the enricher's key with its heuristics intact. */
  lemma EnrichedRowKeepsKey<R>(owner: string, repo: string, number: int, pr: Option<GhPr>,
                               files: Fetched<FileEntry>, reviews: Fetched<R>)
    ensures var e := Enriched(owner, repo, number, pr, files, reviews);
      var r := NormalizeRow(EnrichedInput(e));
      && r.Ok?
      && r.value.id == PrKey(owner, repo, number)
      && r.value.hasTests == e.hasTests && r.value.draft == e.draft
      && r.value.docTouchRatio == e.docTouchRatio
      && r.value.reviewCount == e.reviewCount
      && r.value.ciStatus == "unknown"
      && r.value.htmlUrl == Some(e.htmlUrl)
  {
    var e := Enriched(owner, repo, number, pr, files, reviews);
    assert PrKey(owner, repo, number) == owner + "/" + repo + "#" + IntToString(number);
    assert Truthy(Some(e.id));
  }

  // ------------------------------------------------------------ the table

  /** Every row is stored under its own id and satisfies the row invariant. */
  ghost predicate Keyed(prs: map<string, PrRow>) {
    forall k :: k in prs ==> prs[k].id == k && RowInvariant(prs[k])
  }

  /** The table after upsert_pr(input): the normalised row replaces the one under its id. */
  function Upserted(prs: map<string, PrRow>, input: PrInput): (prs': map<string, PrRow>)
    ensures NormalizeRow(input).Err? ==> prs' == prs
    ensures NormalizeRow(input).Ok? ==>
      var row := NormalizeRow(input).value;
      && prs'.Keys == prs.Keys + {row.id}
      && prs'[row.id] == row
      && forall k :: k in prs && k != row.id ==> prs'[k] == prs[k]
  {
    match NormalizeRow(input)
    case Ok(row) => prs[row.id := row]
    case Err(_) => prs
  }

  /** Upserting keeps every row keyed by its own id. */
  lemma UpsertKeepsKeyed(prs: map<string, PrRow>, input: PrInput)
    requires Keyed(prs)
    ensures Keyed(Upserted(prs, input))
  {
  }

  /** Upserting the same input twice leaves the table as upserting it once. */
  lemma UpsertIdempotent(prs: map<string, PrRow>, input: PrInput)
    ensures Upserted(Upserted(prs, input), input) == Upserted(prs, input)
  {
  }

  /** Of two writes to the same id, the second one's row is what remains. */
  lemma LastWriteWins(prs: map<string, PrRow>, first: PrInput, second: PrInput)
    requires NormalizeRow(first).Ok? && NormalizeRow(second).Ok?
    requires NormalizeRow(first).value.id == NormalizeRow(second).value.id
    ensures Upserted(Upserted(prs, first), second) == Upserted(prs, second)
  {
    var a, b := NormalizeRow(first).value, NormalizeRow(second).value;
    UpsertedIsStore(prs, first, a);
    UpsertedIsStore(prs[a.id := a], second, b);
    UpsertedIsStore(prs, second, b);
    assert prs[a.id := a][b.id := b] == prs[b.id := b];
  }

  /** A successful upsert is a map store of the normalised row. */
  lemma UpsertedIsStore(prs: map<string, PrRow>, input: PrInput, row: PrRow)
    requires NormalizeRow(input) == Ok(row)
    ensures Upserted(prs, input) == prs[row.id := row]
  {
  }

  /** Writes to different ids do not interfere, whatever their order. */
  lemma DistinctUpsertsCommute(prs: map<string, PrRow>, a: PrInput, b: PrInput)
    requires NormalizeRow(a).Ok? && NormalizeRow(b).Ok?
    requires NormalizeRow(a).value.id != NormalizeRow(b).value.id
    ensures Upserted(Upserted(prs, a), b) == Upserted(Upserted(prs, b), a)
  {
    var ra, rb := NormalizeRow(a).value, NormalizeRow(b).value;
    UpsertedIsStore(prs, a, ra);
    UpsertedIsStore(prs[ra.id := ra], b, rb);
    UpsertedIsStore(prs, b, rb);
    UpsertedIsStore(prs[rb.id := rb], a, ra);
    StoresCommute(prs, ra.id, ra, rb.id, rb);
  }

  /** Two map stores under different keys commute. */
  lemma StoresCommute<K, V>(m: map<K, V>, k1: K, v1: V, k2: K, v2: V)
    requires k1 != k2
    ensures m[k1 := v1][k2 := v2] == m[k2 := v2][k1 := v1]
  {
  }

  /** Writing a stored row back once more changes nothing. */
  lemma RewriteStoredRow(prs: map<string, PrRow>, id: string)
    requires Keyed(prs) && id in prs
    requires prs[id].author != Some("") && prs[id].htmlUrl != Some("")
    ensures Upserted(prs, AsInput(prs[id])) == prs
  {
    RenormalizeIsIdentity(prs[id]);
  }

  /** The `prs` table. */
  class PrStore {
    var prs: map<string, PrRow>

    ghost predicate Valid()
      reads this
    {
      Keyed(prs)
    }

    constructor ()
      ensures Valid() && prs == map[]
    {
      prs := map[];
    }

    /** upsert_pr: Err is the ValueError, raised before the table is touched. */
    method UpsertPr(input: PrInput) returns (outcome: Result<(), string>)
      requires Valid()
      modifies this
      ensures Valid()
      ensures prs == Upserted(old(prs), input)
      ensures outcome.Ok? <==> NormalizeRow(input).Ok?
      ensures outcome.Err? ==> outcome.error == MissingIdentity
    {
      var normalized := NormalizeRow(input);
      match normalized {
        case Err(e) =>
          outcome := Err(e);
        case Ok(row) =>
          prs := prs[row.id := row];
          outcome := Ok(());
      }
      UpsertKeepsKeyed(old(prs), input);
    }
  }
}

/** `parseRepositoryInput` of the landing page (src/app/page.tsx): turns what
    the user typed into the owner, repository name, hosting platform and, for
    GitLab and local paths, the full path, or into nothing when no owner or
    repository can be found. */
module RepoInput {
  import opened Optional
  import opened JsString

  datatype RepoType = GitHub | GitLab | Bitbucket | Local

  /** The `type` string the source uses for each platform. */
  function TypeName(t: RepoType): string {
    match t
    case GitHub => "github"
    case GitLab => "gitlab"
    case Bitbucket => "bitbucket"
    case Local => "local"
  }

  /** The object `parseRepositoryInput` returns; `fullPath` is `undefined`
      (here `None`) for GitHub and Bitbucket. */
  datatype ParsedRepo = ParsedRepo(owner: string, repo: string, repoType: RepoType, fullPath: Option<string>)

  const GitHubPrefix: string := "https://github.com/"
  const GitLabPrefix: string := "https://gitlab.com/"
  const BitbucketPrefix: string := "https://bitbucket.org/"

  /** `parts[i] || ''`: a missing segment reads as the empty string. */
  function Segment(parts: seq<string>, i: nat): string {
    if i < |parts| then parts[i] else ""
  }

  /** Neither a GitHub nor a GitLab nor a Bitbucket URL. */
  predicate HasNoHostPrefix(input: string) {
    !StartsWith(input, GitHubPrefix) && !StartsWith(input, GitLabPrefix) && !StartsWith(input, BitbucketPrefix)
  }

  /** The owner, repository, type and full path as the four branches of the
      source pick them out of the trimmed input, before they are cleaned. */
  function RawFields(input: string): ParsedRepo
  {
    if StartsWith(input, GitHubPrefix) then
      TwoSegmentFields(ReplaceFirst(input, GitHubPrefix, ""), GitHub)
    else if StartsWith(input, GitLabPrefix) then
      GitLabFields(ReplaceFirst(input, GitLabPrefix, ""))
    else if StartsWith(input, BitbucketPrefix) then
      TwoSegmentFields(ReplaceFirst(input, BitbucketPrefix, ""), Bitbucket)
    else
      TwoSegmentFields(input, GitHub)
  }

  /** GitHub, Bitbucket and the bare form: segments 0 and 1 of the path. */
  function TwoSegmentFields(path: string, t: RepoType): ParsedRepo
  {
    var parts := Split(path, '/');
    ParsedRepo(Segment(parts, 0), Segment(parts, 1), t, None)
  }

  /** GitLab: the first and the last segment of the path, and the whole path
      re-joined, when there are at least two segments. */
  function GitLabFields(path: string): ParsedRepo
  {
    var parts := Split(path, '/');
    if |parts| >= 2 then
      ParsedRepo(parts[0], parts[|parts| - 1], GitLab, Some(Join(parts, '/')))
    else
      ParsedRepo("", "", GitLab, None)
  }

  /** The three URL prefixes exclude one another, so the order of the tests
      in the source does not decide which branch a URL takes. */
  lemma PrefixesExclusive(s: string)
    ensures StartsWith(s, GitLabPrefix) ==> !StartsWith(s, GitHubPrefix)
    ensures StartsWith(s, BitbucketPrefix) ==> !StartsWith(s, GitHubPrefix) && !StartsWith(s, GitLabPrefix)
  {
    if StartsWith(s, GitLabPrefix) {
      assert s[11] == 'l';
    }
    if StartsWith(s, BitbucketPrefix) {
      assert s[8] == 'b';
    }
  }

  /** What every branch yields: `/`-free owner and repository, never the
      local type, a full path only on GitLab, where its absence means the path
      had fewer than two segments; and the platform each URL prefix names,
      GitHub for an input with none. */
  lemma RawFieldsShape(input: string)
    ensures var raw := RawFields(input);
            && '/' !in raw.owner && '/' !in raw.repo
            && raw.repoType != Local
            && (raw.fullPath.Some? ==> raw.repoType == GitLab)
            && (raw.repoType == GitLab && raw.fullPath.None? ==> raw.owner == "" && raw.repo == "")
    ensures StartsWith(input, GitHubPrefix) ==> RawFields(input).repoType == GitHub
    ensures StartsWith(input, GitLabPrefix) ==> RawFields(input).repoType == GitLab
    ensures StartsWith(input, BitbucketPrefix) ==> RawFields(input).repoType == Bitbucket
    ensures HasNoHostPrefix(input) ==> RawFields(input).repoType == GitHub
  {
    PrefixesExclusive(input);
  }

  /** `repo.slice(0, -4)` when `repo` ends with `.git`: exactly one suffix goes. */
  function StripGitSuffix(repo: string): (r: string)
    ensures EndsWith(repo, ".git") ==> repo == r + ".git"
    ensures !EndsWith(repo, ".git") ==> r == repo
  {
    if EndsWith(repo, ".git") then repo[..|repo| - 4] else repo
  }

  /** Dropping `.git` introduces no character. */
  lemma StripKeepsOut(repo: string, c: char)
    requires c !in repo
    ensures c !in StripGitSuffix(repo)
  {
    if EndsWith(repo, ".git") {
      assert forall i :: 0 <= i < |repo| - 4 ==> StripGitSuffix(repo)[i] == repo[i];
    }
  }

  /** `seg` is the text after the last `/` of `s` (all of `s` if it has none). */
  predicate IsLastSegment(s: string, seg: string) {
    '/' !in seg && EndsWith(s, seg) && (|seg| == |s| || s[|s| - |seg| - 1] == '/')
  }

  /** `parseRepositoryInput(input)` with `isLocalRepo` the form's local-mode flag. */
  function ParseRepositoryInput(input: string, isLocalRepo: bool): Option<ParsedRepo>
  {
    var s := Trim(input);
    if isLocalRepo then Some(LocalRepo(s)) else CleanFields(RawFields(s))
  }

  /** A remote input that parses has a non-empty, trimmed, `/`-free owner,
      a non-empty `/`-free repository, and a full path exactly on GitLab. */
  lemma RemoteResultShape(s: string)
    ensures var r := CleanFields(RawFields(s));
            r.Some? ==>
              && r.value.owner != "" && r.value.repo != ""
              && IsTrimmed(r.value.owner)
              && '/' !in r.value.owner && '/' !in r.value.repo
              && (r.value.fullPath.Some? <==> r.value.repoType == GitLab)
  {
    var raw := RawFields(s);
    var r := CleanFields(raw);
    if r.Some? {
      RawFieldsShape(s);
      TrimSubset(raw.owner, '/');
      TrimSubset(raw.repo, '/');
      StripKeepsOut(Trim(raw.repo), '/');
    }
  }

  /** A remote input that parses has the platform its prefix names. */
  lemma RemoteResultPlatform(s: string)
    ensures var r := CleanFields(RawFields(s));
            r.Some? ==>
              && (StartsWith(s, GitHubPrefix) ==> r.value.repoType == GitHub)
              && (StartsWith(s, GitLabPrefix) ==> r.value.repoType == GitLab)
              && (StartsWith(s, BitbucketPrefix) ==> r.value.repoType == Bitbucket)
              && (HasNoHostPrefix(s) ==> r.value.repoType == GitHub)
  {
    RawFieldsShape(s);
  }

  /** A local path always parses, to owner `local` and its last segment; a
      remote input that parses is shaped as `RemoteResultShape` says of its
      trimmed form. */
  lemma ParseResultShape(input: string, isLocalRepo: bool)
    ensures var r := ParseRepositoryInput(input, isLocalRepo);
            isLocalRepo ==>
              && r.Some? && r.value.owner == "local" && r.value.repoType == Local
              && r.value.fullPath == Some(Trim(input))
              && IsLastSegment(Trim(input), r.value.repo)
    ensures var r := ParseRepositoryInput(input, isLocalRepo);
            !isLocalRepo && r.Some? ==>
              && r.value.owner != "" && r.value.repo != ""
              && IsTrimmed(r.value.owner)
              && '/' !in r.value.owner && '/' !in r.value.repo
              && (r.value.fullPath.Some? <==> r.value.repoType == GitLab)
    ensures var r := ParseRepositoryInput(input, isLocalRepo);
            !isLocalRepo && r.Some? ==>
              && (StartsWith(Trim(input), GitHubPrefix) ==> r.value.repoType == GitHub)
              && (StartsWith(Trim(input), GitLabPrefix) ==> r.value.repoType == GitLab)
              && (StartsWith(Trim(input), BitbucketPrefix) ==> r.value.repoType == Bitbucket)
              && (HasNoHostPrefix(Trim(input)) ==> r.value.repoType == GitHub)
  {
    if !isLocalRepo {
      RemoteResultShape(Trim(input));
      RemoteResultPlatform(Trim(input));
    }
  }

  /** The local-path branch: the last `/`-segment names the repository. */
  function LocalRepo(s: string): (r: ParsedRepo)
    ensures r.owner == "local" && r.repoType == Local && r.fullPath == Some(s)
    ensures IsLastSegment(s, r.repo)
  {
    var parts := Split(s, '/');
    SplitLast(s, '/');
    ParsedRepo("local", parts[|parts| - 1], Local, Some(s))
  }

  /** Trim owner and repository, drop one `.git`, and give up when either is empty. */
  function CleanFields(raw: ParsedRepo): (r: Option<ParsedRepo>)
    ensures r.Some? <==> Trim(raw.owner) != "" && StripGitSuffix(Trim(raw.repo)) != ""
    ensures r.Some? ==> r.value == raw.(owner := Trim(raw.owner), repo := StripGitSuffix(Trim(raw.repo)))
  {
    var owner := Trim(raw.owner);
    var repo := StripGitSuffix(Trim(raw.repo));
    if owner == "" || repo == "" then None
    else Some(ParsedRepo(owner, repo, raw.repoType, raw.fullPath))
  }

  /** Surrounding white space never changes the outcome: only the trimmed
      input is looked at. */
  lemma ParseIgnoresSurroundingSpace(input: string, isLocalRepo: bool)
    ensures ParseRepositoryInput(Trim(input), isLocalRepo) == ParseRepositoryInput(input, isLocalRepo)
  {
    TrimOfTrimmed(Trim(input));
  }

  /** With a `/`-free owner in front, `owner/repo...` splits into `owner`, `repo`, ... */
  lemma SplitOwnerRepo(owner: string, repo: string, tail: string)
    requires '/' !in owner && '/' !in repo
    requires tail == [] || tail[0] == '/'
    ensures var parts := Split(owner + "/" + repo + tail, '/');
            |parts| >= 2 && parts[0] == owner && parts[1] == repo
  {
    assert owner + "/" + repo + tail == owner + ['/'] + (repo + tail);
    SplitAfter(owner, repo + tail, '/');
    if tail == [] {
      assert repo + tail == repo;
      SplitNoSeparator(repo, '/');
    } else {
      assert repo + tail == repo + ['/'] + tail[1..];
      SplitAfter(repo, tail[1..], '/');
    }
  }

  /** An `owner/repo...` string whose owner and repository are free of `/`
      does not begin with `https://`. */
  lemma OwnerRepoIsNotUrl(owner: string, repo: string, tail: string)
    requires '/' !in owner && repo != [] && '/' !in repo
    ensures !StartsWith(owner + "/" + repo + tail, "https://")
  {
    var s := owner + "/" + repo + tail;
    var p := "https://";
    assert s[|owner|] == '/';
    if |owner| < 6 {
      assert p[|owner|] != '/';
    } else if |owner| == 6 {
      assert s[7] == repo[0];
      assert p[7] == '/';
    } else {
      assert s[6] == owner[6];
      assert p[6] == '/';
    }
  }

  /** Gluing two non-empty trimmed strings gives a trimmed string. */
  lemma TrimmedConcat(a: string, b: string)
    requires a != [] && b != [] && IsTrimmed(a) && IsTrimmed(b)
    ensures IsTrimmed(a + b)
  {
    assert (a + b)[0] == a[0];
    assert (a + b)[|a + b| - 1] == b[|b| - 1];
  }

  /** `owner/repo` followed by an empty tail or a tail `/...` that ends in a
      non-space character is trimmed. */
  lemma OwnerRepoTrimmed(owner: string, repo: string, tail: string)
    requires owner != "" && IsTrimmed(owner) && repo != "" && IsTrimmed(repo)
    requires tail == [] || (tail[0] == '/' && !IsWhiteSpace(tail[|tail| - 1]))
    ensures IsTrimmed(owner + "/" + repo + tail)
  {
    TrimmedConcat(owner, "/");
    TrimmedConcat(owner + "/", repo);
    if tail != [] {
      TrimmedConcat(owner + "/" + repo, tail);
    } else {
      assert owner + "/" + repo + tail == owner + "/" + repo;
    }
  }

  /** After `https://github.com/`, segments 0 and 1 are the owner and the repository. */
  lemma GitHubRawFields(rest: string)
    ensures RawFields(GitHubPrefix + rest) == TwoSegmentFields(rest, GitHub)
  {
    var s := GitHubPrefix + rest;
    ReplacePrefix(s, GitHubPrefix);
    assert s[|GitHubPrefix|..] == rest;
  }

  /** After `https://bitbucket.org/`, segments 0 and 1 are the owner and the repository. */
  lemma BitbucketRawFields(rest: string)
    ensures RawFields(BitbucketPrefix + rest) == TwoSegmentFields(rest, Bitbucket)
  {
    var s := BitbucketPrefix + rest;
    assert s[8] == 'b';
    assert !StartsWith(s, GitHubPrefix) && !StartsWith(s, GitLabPrefix);
    ReplacePrefix(s, BitbucketPrefix);
    assert s[|BitbucketPrefix|..] == rest;
  }

  /** After `https://gitlab.com/`, the GitLab branch reads the rest of the input. */
  lemma GitLabRawFields(rest: string)
    ensures RawFields(GitLabPrefix + rest) == GitLabFields(rest)
  {
    var s := GitLabPrefix + rest;
    assert s[11] == 'l';
    assert !StartsWith(s, GitHubPrefix);
    ReplacePrefix(s, GitLabPrefix);
    assert s[|GitLabPrefix|..] == rest;
  }

  /** After `https://gitlab.com/`, the first and the last segment are the owner
      and the repository and the full path is everything after the prefix. */
  lemma GitLabRawFieldsOf(rest: string, parts: seq<string>)
    requires Split(rest, '/') == parts && |parts| >= 2
    ensures RawFields(GitLabPrefix + rest) == ParsedRepo(parts[0], parts[|parts| - 1], GitLab, Some(rest))
  {
    GitLabRawFields(rest);
    JoinSplit(rest, '/');
  }

  /** The raw fields of an input starting with a two-segment host prefix. */
  lemma HostedRawFields(prefix: string, t: RepoType, owner: string, repo: string, tail: string)
    requires (prefix == GitHubPrefix && t == GitHub) || (prefix == BitbucketPrefix && t == Bitbucket)
    requires '/' !in owner && '/' !in repo
    requires tail == [] || tail[0] == '/'
    ensures RawFields(prefix + owner + "/" + repo + tail) == ParsedRepo(owner, repo, t, None)
  {
    var rest := owner + "/" + repo + tail;
    assert prefix + owner + "/" + repo + tail == prefix + rest;
    SplitOwnerRepo(owner, repo, tail);
    if t == GitHub {
      GitHubRawFields(rest);
    } else {
      BitbucketRawFields(rest);
    }
  }

  /** Host prefix, owner, repository and tail form an input with nothing to trim. */
  lemma HostedInputTrimmed(prefix: string, owner: string, repo: string, tail: string)
    requires prefix == GitHubPrefix || prefix == BitbucketPrefix || prefix == GitLabPrefix
    requires owner != "" && IsTrimmed(owner) && repo != "" && IsTrimmed(repo)
    requires tail == [] || (tail[0] == '/' && !IsWhiteSpace(tail[|tail| - 1]))
    ensures Trim(prefix + owner + "/" + repo + tail) == prefix + owner + "/" + repo + tail
  {
    var rest := owner + "/" + repo + tail;
    OwnerRepoTrimmed(owner, repo, tail);
    TrimmedConcat(prefix, rest);
    assert prefix + owner + "/" + repo + tail == prefix + rest;
    TrimOfTrimmed(prefix + rest);
  }

  /** Two strings with nothing to trim are their own trims. */
  lemma BothTrimmed(a: string, b: string)
    requires IsTrimmed(a) && IsTrimmed(b)
    ensures Trim(a) == a && Trim(b) == b
  {
    TrimOfTrimmed(a);
    TrimOfTrimmed(b);
  }

  /** Cleaning fields that are their own trims only drops one `.git`. */
  lemma CleanTrimmed(raw: ParsedRepo)
    requires raw.owner != "" && Trim(raw.owner) == raw.owner && Trim(raw.repo) == raw.repo
    ensures CleanFields(raw)
            == if StripGitSuffix(raw.repo) == "" then None
               else Some(raw.(repo := StripGitSuffix(raw.repo)))
  {
  }

  /** A remote input that is its own trim parses to its raw fields, cleaned. */
  lemma ParseViaFields(s: string, raw: ParsedRepo)
    requires Trim(s) == s && RawFields(s) == raw
    requires raw.owner != "" && Trim(raw.owner) == raw.owner && Trim(raw.repo) == raw.repo
    ensures ParseRepositoryInput(s, false)
            == if StripGitSuffix(raw.repo) == "" then None
               else Some(raw.(repo := StripGitSuffix(raw.repo)))
  {
    CleanTrimmed(raw);
  }

  /** `https://github.com/owner/repo...` and `https://bitbucket.org/owner/repo...`:
      the first two segments after the prefix are the owner and the repository
      (without one trailing `.git`); later segments are ignored. */
  lemma HostedUrl(prefix: string, t: RepoType, owner: string, repo: string, tail: string)
    requires (prefix == GitHubPrefix && t == GitHub) || (prefix == BitbucketPrefix && t == Bitbucket)
    requires owner != "" && IsTrimmed(owner) && '/' !in owner
    requires repo != "" && IsTrimmed(repo) && '/' !in repo
    requires tail == [] || (tail[0] == '/' && !IsWhiteSpace(tail[|tail| - 1]))
    ensures ParseRepositoryInput(prefix + owner + "/" + repo + tail, false)
            == if StripGitSuffix(repo) == "" then None
               else Some(ParsedRepo(owner, StripGitSuffix(repo), t, None))
  {
    HostedInputTrimmed(prefix, owner, repo, tail);
    HostedRawFields(prefix, t, owner, repo, tail);
    BothTrimmed(owner, repo);
    ParseViaFields(prefix + owner + "/" + repo + tail, ParsedRepo(owner, repo, t, None));
  }

  /** The raw fields of a bare `owner/repo...` input. */
  lemma ShorthandRawFields(owner: string, repo: string, tail: string)
    requires '/' !in owner && repo != "" && '/' !in repo
    requires tail == [] || tail[0] == '/'
    ensures RawFields(owner + "/" + repo + tail) == ParsedRepo(owner, repo, GitHub, None)
  {
    OwnerRepoIsNotUrl(owner, repo, tail);
    assert "https://" <= GitHubPrefix && "https://" <= GitLabPrefix && "https://" <= BitbucketPrefix;
    SplitOwnerRepo(owner, repo, tail);
  }

  /** A bare `owner/repo...` input built from trimmed parts has nothing to trim. */
  lemma ShorthandInputTrimmed(owner: string, repo: string, tail: string)
    requires owner != "" && IsTrimmed(owner) && repo != "" && IsTrimmed(repo)
    requires tail == [] || (tail[0] == '/' && !IsWhiteSpace(tail[|tail| - 1]))
    ensures Trim(owner + "/" + repo + tail) == owner + "/" + repo + tail
  {
    OwnerRepoTrimmed(owner, repo, tail);
    TrimOfTrimmed(owner + "/" + repo + tail);
  }

  /** The bare `owner/repo...` form is read as a GitHub repository. */
  lemma OwnerRepoShorthand(owner: string, repo: string, tail: string)
    requires owner != "" && IsTrimmed(owner) && '/' !in owner
    requires repo != "" && IsTrimmed(repo) && '/' !in repo
    requires tail == [] || (tail[0] == '/' && !IsWhiteSpace(tail[|tail| - 1]))
    ensures ParseRepositoryInput(owner + "/" + repo + tail, false)
            == if StripGitSuffix(repo) == "" then None
               else Some(ParsedRepo(owner, StripGitSuffix(repo), GitHub, None))
  {
    var s := owner + "/" + repo + tail;
    ShorthandInputTrimmed(owner, repo, tail);
    ShorthandRawFields(owner, repo, tail);
    BothTrimmed(owner, repo);
    ParseViaFields(s, ParsedRepo(owner, repo, GitHub, None));
  }

  /** A string that starts and ends with non-empty trimmed strings is trimmed. */
  lemma TrimmedByEnds(s: string, first: string, last: string)
    requires first != "" && IsTrimmed(first) && StartsWith(s, first)
    requires last != "" && IsTrimmed(last) && EndsWith(s, last)
    ensures IsTrimmed(s)
  {
    assert s[0] == first[0];
    assert s[|s| - 1] == s[|s| - |last|..][|last| - 1];
  }

  /** A GitLab URL built from trimmed first and last segments has nothing to trim. */
  lemma GitLabInputTrimmed(parts: seq<string>)
    requires |parts| >= 2
    requires parts[0] != "" && IsTrimmed(parts[0])
    requires parts[|parts| - 1] != "" && IsTrimmed(parts[|parts| - 1])
    ensures Trim(GitLabPrefix + Join(parts, '/')) == GitLabPrefix + Join(parts, '/')
  {
    GitLabPathTrimmed(parts);
    PrefixesTrimmed();
    PrefixedTrimmed(GitLabPrefix, Join(parts, '/'));
  }

  /** The three URL prefixes have nothing to trim. */
  lemma PrefixesTrimmed()
    ensures GitHubPrefix != "" && IsTrimmed(GitHubPrefix)
    ensures GitLabPrefix != "" && IsTrimmed(GitLabPrefix)
    ensures BitbucketPrefix != "" && IsTrimmed(BitbucketPrefix)
  {
  }

  /** A trimmed prefix before a trimmed text leaves nothing to trim. */
  lemma PrefixedTrimmed(prefix: string, rest: string)
    requires prefix != "" && IsTrimmed(prefix) && rest != "" && IsTrimmed(rest)
    ensures Trim(prefix + rest) == prefix + rest
  {
    TrimmedConcat(prefix, rest);
    TrimOfTrimmed(prefix + rest);
  }

  /** The path of such a URL has nothing to trim either. */
  lemma GitLabPathTrimmed(parts: seq<string>)
    requires |parts| >= 2
    requires parts[0] != "" && IsTrimmed(parts[0])
    requires parts[|parts| - 1] != "" && IsTrimmed(parts[|parts| - 1])
    ensures Join(parts, '/') != "" && IsTrimmed(Join(parts, '/'))
  {
    JoinEnds(parts, '/');
    TrimmedByEnds(Join(parts, '/'), parts[0], parts[|parts| - 1]);
  }

  /** `https://gitlab.com/g1/.../gn/repo`: the owner is the first group, the
      repository is the last segment and the full path keeps every segment. */
  lemma GitLabUrl(parts: seq<string>)
    requires |parts| >= 2
    requires forall i :: 0 <= i < |parts| ==> '/' !in parts[i]
    requires parts[0] != "" && IsTrimmed(parts[0])
    requires parts[|parts| - 1] != "" && IsTrimmed(parts[|parts| - 1])
    ensures ParseRepositoryInput(GitLabPrefix + Join(parts, '/'), false)
            == var repo := StripGitSuffix(parts[|parts| - 1]);
               if repo == "" then None
               else Some(ParsedRepo(parts[0], repo, GitLab, Some(Join(parts, '/'))))
  {
    var path := Join(parts, '/');
    var s := GitLabPrefix + path;
    var raw := ParsedRepo(parts[0], parts[|parts| - 1], GitLab, Some(path));
    GitLabInputTrimmed(parts);
    SplitJoin(parts, '/');
    GitLabRawFieldsOf(path, parts);
    BothTrimmed(parts[0], parts[|parts| - 1]);
    ParseViaFields(s, raw);
  }

  /** A GitLab URL with a single segment after the prefix has no repository. */
  lemma GitLabSingleSegment(input: string)
    requires StartsWith(Trim(input), GitLabPrefix)
    requires '/' !in Trim(input)[|GitLabPrefix|..]
    ensures ParseRepositoryInput(input, false) == None
  {
    var s := Trim(input);
    var rest := s[|GitLabPrefix|..];
    assert s == GitLabPrefix + rest;
    GitLabShortFields(rest);
    assert Trim("") == "";
  }

  /** The raw fields of a GitLab URL with no `/` after the prefix. */
  lemma GitLabShortFields(rest: string)
    requires '/' !in rest
    ensures RawFields(GitLabPrefix + rest) == ParsedRepo("", "", GitLab, None)
  {
    GitLabRawFields(rest);
    SplitNoSeparator(rest, '/');
  }

  /** `a/.git` loses its only `.git` and with it the repository: no result. */
  lemma DotGitAloneIsRejected()
    ensures ParseRepositoryInput("a/.git", false) == None
  {
    assert "a/.git" == "a" + "/" + ".git" + "";
    OwnerRepoShorthand("a", ".git", "");
  }

  /** Only one trailing `.git` is removed. */
  lemma OneGitSuffixRemoved()
    ensures ParseRepositoryInput("a/x.git.git", false) == Some(ParsedRepo("a", "x.git", GitHub, None))
  {
    assert "a/x.git.git" == "a" + "/" + "x.git.git" + "";
    assert EndsWith("x.git.git", ".git") && "x.git.git"[..5] == "x.git";
    assert StripGitSuffix("x.git.git") == "x.git";
    OwnerRepoShorthand("a", "x.git.git", "");
  }

  /** A local path ending in `/` has an empty last segment, and the result is
      still not null. */
  lemma LocalTrailingSlash()
    ensures ParseRepositoryInput("/srv/proj/", true) == Some(ParsedRepo("local", "", Local, Some("/srv/proj/")))
  {
    var s := "/srv/proj/";
    TrimOfTrimmed(s);
    var r := ParseRepositoryInput(s, true).value;
    assert IsLastSegment(s, r.repo);
    assert s[|s| - 1] == '/';
  }
}

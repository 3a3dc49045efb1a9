# deepwiki-open landing page: repository input, translation and form submit

This project models in Dafny the logic of the landing page of deepwiki-open
(`src/app/page.tsx`) and proves properties of that model. The page lets a user
name a code repository, as a GitHub, GitLab or Bitbucket URL, as the
shorthand `owner/repo`, or as a local path. It then sends the browser to the
wiki page of that repository, with the chosen options in the query string.

Four modules model it, plus a small `Optional` module for `Option`:

- `JsString` (`js_string.dfy`): the JavaScript string operations the page
  relies on, written out over `seq<char>`.
  - `trim`, with the ECMAScript WhiteSpace and LineTerminator characters.
  - `split` and `join` on one character. A split keeps empty segments and
    always returns at least one.
  - `startsWith`, `endsWith` and `indexOf`.
  - `replace` with a string pattern. It rewrites only the first match and
    expands the `$$`, `$&`, `` $` `` and `$'` patterns of the replacement.
- `RepoInput` (`repo_input.dfy`): `parseRepositoryInput`.
  - The local-path branch.
  - The GitHub, GitLab and Bitbucket URL branches and the bare
    `owner/repo` branch.
  - Cleaning: trim, strip one `.git`, and give `null` (here `None`) for an
    empty owner or repository.
- `Translation` (`translation.dfy`): the translation function `t`.
  - `Translate` is the imperative walk over the dotted key and the fold over
    the parameters.
  - It is proved equal to the functional specification `TranslationOf`,
    about which the remaining lemmas are stated.
- `HomeForm` (`home_form.dfy`): the submit handler and its surroundings.
  - The form state is the class `HomePage`, one field per `useState` that
    the handler reads or writes.
  - `handleFormSubmit`, with the `URLSearchParams` buffer as the class
    `SearchParams`.
  - The two engine checkboxes.
  - The reading side, `ReadWikiRequest`, which models how the repository
    page (`src/app/[owner]/[repo]/page.tsx`) takes the options back out of
    the query. It is the round-trip partner of the query the form builds.

Points where the model makes a choice:

- The source file contains an unresolved merge conflict. The model takes
  the union of both sides:
  - `isLocalRepo`, and with it the local-path branch, from one side;
  - `selectedLanguage` and the `language` parameter from the other.
- Navigation always goes to `/<owner>/<repo>?<query>`, as the common line
  after the conflict does. The `repoPath` and `queryString` values computed
  inside the conflict are never used, so they are not modelled.

## Model

| member | source | states |
|---|---|---|
| JsString.Trim | src/app/page.tsx:112 | `input.trim()` is a slice of the input. What goes away at either end is white space, and the result has no white space at either end. |
| JsString.TrimOfTrimmed | src/app/page.tsx:165-166 | Trimming a string with no white space at either end gives the same string, so the second trim of owner and repository changes nothing then. |
| JsString.TrimSubset | src/app/page.tsx:165-166 | Trimming introduces no character, so a trimmed `/`-free segment stays `/`-free. |
| JsString.Split | src/app/page.tsx:116 | `split('/')` gives at least one segment, and no segment contains the separator. |
| JsString.JoinSplit | src/app/page.tsx:147 | Joining the segments of a split with the same separator restores the text, so `parts.join('/')` is the text after the GitLab prefix. |
| JsString.SplitJoin | src/app/page.tsx:138-147 | Splitting a join of separator-free segments gives those segments back. |
| JsString.SplitAfter | src/app/page.tsx:131 | The text before the first separator is the first segment, and the rest splits on its own. |
| JsString.SplitNoSeparator | src/app/page.tsx:131 | A text without the separator is a single segment. |
| JsString.SplitLast | src/app/page.tsx:116-117 | The last segment is a suffix of the text, preceded by the separator unless it is the whole text. |
| JsString.Join | src/app/page.tsx:147 | `parts.join(sep)`: the segments with the separator between each two neighbours; `JoinSplit` and `SplitJoin` make it the inverse of `Split`. |
| JsString.IndexOf | src/app/page.tsx:81 | `indexOf` finds the first index at which the pattern occurs, and finds nothing exactly when the pattern occurs nowhere. |
| JsString.ReplaceFirst | src/app/page.tsx:81 | `s.replace(pat, rep)` with a string pattern: the text before the index `IndexOf` finds, the expanded replacement, and the text after the match; the text itself when there is no match. Its properties are `ReplaceAt`, `ReplaceAbsent`, `ReplaceAtStart` and `ReplacePrefix`. |
| JsString.Expand | src/app/page.tsx:81 | The replacement text as `replace` inserts it: `$$` gives `$`, `$&` the match, `` $` `` the text before it, `$'` the text after it, and any other `$` stays literal. `ExpandPlain` and `Translation.DoubleMatch` state its cases. |
| JsString.ReplaceAt | src/app/page.tsx:81 | `replace` with a string pattern rewrites the first occurrence only, with its `$` patterns expanded, and keeps everything before and after it. |
| JsString.ReplaceAbsent | src/app/page.tsx:81 | `replace` leaves the text unchanged when the pattern does not occur. |
| JsString.ReplaceAtStart | src/app/page.tsx:81 | A pattern at the very start of the text is the match that is replaced, with nothing before it. |
| JsString.ExpandPlain | src/app/page.tsx:81 | A replacement with no `$` is inserted verbatim. |
| JsString.ReplacePrefix | src/app/page.tsx:131 | Replacing a leading prefix by `''` drops exactly that prefix. |
| RepoInput.ParseRepositoryInput | src/app/page.tsx:111-178 | `parseRepositoryInput`: trims the input, then takes the local branch or reads the raw fields by URL prefix and cleans them. What it returns is stated by `ParseResultShape`, `ParseIgnoresSurroundingSpace`, `HostedUrl`, `GitLabUrl`, `GitLabSingleSegment` and `OwnerRepoShorthand`. |
| RepoInput.RawFields | src/app/page.tsx:126-162 | The owner, repository, type and full path that the four branches pick out of the trimmed input before cleaning, testing the prefixes in the source's order. `RawFieldsShape` and the `...RawFields` lemmas state them. |
| RepoInput.TwoSegmentFields | src/app/page.tsx:129-162 | The GitHub, Bitbucket and bare branches: segments 0 and 1 of the path, `''` when missing, and no full path. |
| RepoInput.GitLabFields | src/app/page.tsx:136-149 | The GitLab branch: with two or more segments, the first and the last segment and the re-joined path; otherwise the empty defaults. |
| RepoInput.PrefixesExclusive | src/app/page.tsx:129-156 | No input starts with two of the three URL prefixes, so the order of the tests decides nothing. |
| RepoInput.RawFieldsShape | src/app/page.tsx:126-162 | Every branch yields a `/`-free owner and repository and never the local type. `https://github.com/` gives GitHub, `https://gitlab.com/` GitLab, `https://bitbucket.org/` Bitbucket, and an input with none of them GitHub. A full path appears only on GitLab. When it is absent there, owner and repository are empty. |
| RepoInput.ParseResultShape | src/app/page.tsx:111-178 | A local path always parses, to owner `local`, type local, the trimmed input as full path and its last segment as repository. A remote input that parses has a non-empty, trimmed, `/`-free owner and a non-empty, `/`-free repository, the type its prefix names (GitHub for none), and a full path exactly on GitLab. |
| RepoInput.RemoteResultShape | src/app/page.tsx:164-177 | Cleaned raw fields that are not `null` have a non-empty, trimmed, `/`-free owner, a non-empty `/`-free repository, and a full path exactly on GitLab. |
| RepoInput.RemoteResultPlatform | src/app/page.tsx:126-177 | Cleaned raw fields that are not `null` carry the platform the input's prefix names, GitHub when it has none. |
| RepoInput.ParseIgnoresSurroundingSpace | src/app/page.tsx:112 | Surrounding white space never changes the result. |
| RepoInput.LocalRepo | src/app/page.tsx:115-124 | The local branch gives owner `local`, type local, the input as full path, and the text after the last `/` as repository, even when that is empty. |
| RepoInput.CleanFields | src/app/page.tsx:164-177 | A result comes back exactly when the trimmed owner and the trimmed repository without one `.git` are both non-empty. It then carries those cleaned values. |
| RepoInput.StripGitSuffix | src/app/page.tsx:169-171 | A trailing `.git` is removed once; anything else is kept. |
| RepoInput.StripKeepsOut | src/app/page.tsx:169-171 | Dropping `.git` introduces no character, so the repository stays `/`-free. |
| RepoInput.GitHubRawFields | src/app/page.tsx:129-134 | After `https://github.com/`, segments 0 and 1 of the path are the owner and the repository, with GitHub as the type. |
| RepoInput.BitbucketRawFields | src/app/page.tsx:151-156 | After `https://bitbucket.org/`, segments 0 and 1 of the path are the owner and the repository, with Bitbucket as the type. |
| RepoInput.GitLabRawFields | src/app/page.tsx:136-149 | After `https://gitlab.com/`, the GitLab branch reads the rest of the input. |
| RepoInput.GitLabRawFieldsOf | src/app/page.tsx:142-148 | With two or more segments, the owner is the first segment, the repository is the last one, and the full path is the whole text after the prefix. |
| RepoInput.HostedRawFields | src/app/page.tsx:129-156 | For GitHub and Bitbucket URLs `prefix/owner/repo[/...]`, the raw owner and repository are exactly those two segments; later segments are ignored. |
| RepoInput.HostedUrl | src/app/page.tsx:129-177 | `https://github.com/owner/repo...` and `https://bitbucket.org/owner/repo...` parse to that owner and repository without one `.git`, or to `null` when nothing is left of the repository. |
| RepoInput.GitLabUrl | src/app/page.tsx:136-177 | `https://gitlab.com/g1/.../repo` parses to the first group as owner, the last segment without `.git` as repository, and the whole path after the prefix as full path (or to `null` when nothing is left of the repository). |
| RepoInput.GitLabSingleSegment | src/app/page.tsx:142-175 | A GitLab URL with a single segment after the prefix gives `null`. |
| RepoInput.GitLabShortFields | src/app/page.tsx:142-148 | With one segment after the GitLab prefix, owner and repository stay empty and there is no full path. |
| RepoInput.ShorthandRawFields | src/app/page.tsx:158-162 | A bare `owner/repo...` input is not one of the URL prefixes and reads its first two segments. |
| RepoInput.OwnerRepoShorthand | src/app/page.tsx:158-177 | The bare `owner/repo...` form parses as a GitHub repository, with one `.git` removed. |
| RepoInput.OwnerRepoIsNotUrl | src/app/page.tsx:129-158 | An `owner/repo` string with a `/`-free owner and a non-empty repository never starts with `https://`, so it takes the bare branch. |
| RepoInput.CleanTrimmed | src/app/page.tsx:164-177 | Cleaning fields that are already trimmed only drops one `.git` and checks for emptiness. |
| RepoInput.ParseViaFields | src/app/page.tsx:111-177 | An input with nothing to trim parses to its raw fields, cleaned. |
| RepoInput.DotGitAloneIsRejected | src/app/page.tsx:169-175 | `a/.git` loses its `.git` and with it the repository, giving `null`. |
| RepoInput.OneGitSuffixRemoved | src/app/page.tsx:169-171 | `a/x.git.git` parses to repository `x.git`: only one suffix goes. |
| RepoInput.LocalTrailingSlash | src/app/page.tsx:115-124 | A local path ending in `/` parses, with an empty repository name, because the local branch has no emptiness check. |
| Translation.Lookup | src/app/page.tsx:64-76 | The walk down the catalogue along the key's segments, failing as soon as a segment is missing or the value reached is not an object. `LookupAppend`, `LookupStuck`, `TopLevelKey` and `NestedKey` state it. |
| Translation.Substitute | src/app/page.tsx:79-83 | The `reduce` over the parameters: each in turn replaces the first `{name}` of the text so far. `SubstituteLast`, `SubstituteWithoutPlaceholders`, `SubstituteFirstOnly` and `LaterParameterSeesEarlierValue` state it. |
| Translation.TranslationOf | src/app/page.tsx:62-87 | What `t(key, params)` returns: the filled-in string the key leads to, and the key itself otherwise. It is the specification `Translate` is proved against, with `MissingSegmentGivesKey`, `NonStringGivesKey` and `SingleEntry` about it. |
| Translation.Translate | src/app/page.tsx:62-87 | The loop over the key's segments and the fold over the parameters compute `TranslationOf`. |
| Translation.LookupAppend | src/app/page.tsx:69-76 | One more segment steps into the object reached so far, or fails when it is not an object or lacks the key. |
| Translation.LookupStuck | src/app/page.tsx:70-74 | Once a segment cannot be followed, the whole walk fails. |
| Translation.MissingSegmentGivesKey | src/app/page.tsx:72-74 | A missing segment, or one reached through a value that is not an object, makes `t` return the key itself. |
| Translation.NonStringGivesKey | src/app/page.tsx:85-86 | A value that is not a string makes `t` return the key itself. |
| Translation.SubstituteLast | src/app/page.tsx:80-82 | The parameters apply in order; the last one acts on the text the earlier ones produced. |
| Translation.SubstituteWithoutPlaceholders | src/app/page.tsx:79-83 | A text in which no parameter's placeholder occurs comes back unchanged, in particular with no parameters. |
| Translation.SubstituteFirstOnly | src/app/page.tsx:81 | One parameter whose value has no `$` replaces exactly the first `{name}` and leaves later ones. |
| Translation.SubstituteAtStart | src/app/page.tsx:81 | A placeholder that opens the text is replaced by the expanded value, and the rest is kept. |
| Translation.TopLevelKey | src/app/page.tsx:64-83 | A key without dots reads the top-level entry: its filled-in text when it is a string, the key otherwise. |
| Translation.NestedKey | src/app/page.tsx:64-83 | A key `a.b` reads entry `b` of the object under `a`. |
| Translation.SingleEntry | src/app/page.tsx:64-83 | In a one-entry catalogue, the entry's key gives its text, filled in. |
| Translation.NestedKeyExample | src/app/page.tsx:64-76 | `common.appName` reaches the nested string. |
| Translation.KeyThroughStringExample | src/app/page.tsx:70-74 | A key that continues past a string value gives the key back. |
| Translation.LaterParameterSeesEarlierValue | src/app/page.tsx:80-82 | A later parameter fills a placeholder that an earlier parameter's value introduced. |
| Translation.Chain | src/app/page.tsx:80-82 | With the first value being the second parameter's placeholder, the fold ends at the second value. |
| Translation.ChainStep | src/app/page.tsx:81 | A text that is just the placeholder becomes the value, when the value has no `$`. |
| Translation.DollarPatternDoubles | src/app/page.tsx:81 | A parameter value `$&$&` puts the matched `{name}` in twice, as JavaScript's `replace` does. |
| Translation.DoubleMatch | src/app/page.tsx:81 | `$&$&` expands to the match twice. |
| HomeForm.ParamGet | src/app/page.tsx:203-228 | `searchParams.get(name)` on the query built here, as the repository page (`src/app/[owner]/[repo]/page.tsx`, lines 163-170) calls it: the value of the first parameter called `name`, `null` (here `None`) when there is none. `ParamGetFirst` and `ParamGetAppend` state it. |
| HomeForm.ParamGetFirst | src/app/page.tsx:203-228 | `searchParams.get`, as the repository page (`src/app/[owner]/[repo]/page.tsx`, lines 163-170) calls it on the parameters built here, gives the value of the first parameter with that name, and nothing exactly when no parameter has it. |
| HomeForm.ParamGetAppend | src/app/page.tsx:203-228 | Looking up a name in two lists one after the other: the first list wins. |
| HomeForm.TokenParamName | src/app/page.tsx:205-214 | The parameter name the access token travels under: `github_token`, `gitlab_token` or `bitbucket_token`, and none for a local repository. |
| HomeForm.TokenParams | src/app/page.tsx:205-214 | The token parameter: present only when token inputs are shown, the token is non-empty and the platform has a token name. |
| HomeForm.QueryParams | src/app/page.tsx:203-228 | The query `handleFormSubmit` builds, group by group in the source's order. `BuildQuery` computes it; `QueryParamsContents`, `QueryParamsNames` and `WikiPageReadsSubmittedOptions` state what it holds. |
| HomeForm.QueryParamsContents | src/app/page.tsx:205-228 | Each parameter of the built query: a token only when token inputs are shown and the token is non-empty, and under the parsed platform's name only (none for a local repository); `type` always; `local_ollama=true` under that flag; `use_openrouter=true` with `openrouter_model` under that flag; `language` last. |
| HomeForm.QueryTokenParams | src/app/page.tsx:205-214 | The three token parameters. |
| HomeForm.QueryTokenParam | src/app/page.tsx:205-214 | The token parameter of one platform carries the token exactly when the token is sent and that platform was parsed. |
| HomeForm.QueryEngineParams | src/app/page.tsx:217-224 | The engine parameters are present exactly under their flags. |
| HomeForm.QueryTypeAndLanguage | src/app/page.tsx:217-228 | `type` is the parsed platform, and `language` is the selected language and the last parameter. |
| HomeForm.QueryParts | src/app/page.tsx:203-228 | The query is its five groups in order (token, `type`, `local_ollama`, the two OpenRouter parameters, `language`), and each group holds exactly the named parameters under their conditions. |
| HomeForm.QueryParamsNames | src/app/page.tsx:203-228 | The query uses no names besides the eight above. |
| HomeForm.GetFromParts | src/app/page.tsx:203-228 | Looking up a name in five lists one after the other. |
| HomeForm.GetOr | src/app/page.tsx:203-228 | The repository page's `searchParams.get(name)` with a fallback (`src/app/[owner]/[repo]/page.tsx`, lines 163-170): a missing or empty value gives the fallback, as the source's logical or does. |
| HomeForm.ReadWikiRequest | src/app/page.tsx:203-237 | The options the repository page (`src/app/[owner]/[repo]/page.tsx`, lines 163-170) reads from the query this handler sends: three tokens defaulting to `''`, the type defaulting to `github`, the two flags as `=== 'true'`, the model defaulting to `openai/gpt-4o`, and the language defaulting to `en`. |
| HomeForm.WikiPageReadsSubmittedOptions | src/app/page.tsx:203-237 | The repository page (`src/app/[owner]/[repo]/page.tsx`, lines 163-170) reads back what the form sent. That is the token under the parsed platform only, the type and both flags. It is also the model name and the language, each replaced by its default when missing or empty. |
| HomeForm.ExclusiveFlagsExclusiveQuery | src/app/page.tsx:218-224 | With the engine flags exclusive, the query never asks for both engines. |
| HomeForm.Url | src/app/page.tsx:237 | The text `router.push` receives: `/`, the encoded owner, `/`, the encoded repository, `?`, and the serialised query. |
| HomeForm.LocalSubmission | src/app/page.tsx:115-124 | A local path is submitted as owner `local` with its last segment as repository, type `local`, and no token. |
| HomeForm.SearchParams.constructor | src/app/page.tsx:203 | `new URLSearchParams()` holds no parameters. |
| HomeForm.SearchParams.Append | src/app/page.tsx:208 | `params.append` adds one parameter at the end. |
| HomeForm.HomePage.constructor | src/app/page.tsx:89-106 | The initial state: the default repository URL, everything off, model `openai/gpt-4o`, no token, no error, and the language from the language context. |
| HomeForm.HomePage.HandleFormSubmit | src/app/page.tsx:180-238 | While a submission is in progress nothing changes and there is no navigation. Otherwise an unparsable input sets the error message and re-enables the form. A parsable one keeps the form disabled and navigates to its owner and repository with the built query. With the engine flags exclusive, that query never asks for both engines. |
| HomeForm.HomePage.SubmitParsed | src/app/page.tsx:194-237 | The handler after parsing: the error path, or the navigation target with the built query. |
| HomeForm.HomePage.BuildQuery | src/app/page.tsx:203-228 | The parameters appended in the source's order are exactly `QueryParams`. |
| HomeForm.HomePage.OnLocalOllamaChange | src/app/page.tsx:433-437 | Ticking local Ollama unticks OpenRouter; unticking leaves it. The engine flags stay exclusive. |
| HomeForm.HomePage.OnUseOpenRouterChange | src/app/page.tsx:451-456 | Ticking OpenRouter unticks local Ollama; unticking leaves it. The engine flags stay exclusive. |

## Left out

- Rendering: the JSX, styling, the Mermaid demo diagrams and the platform selector (`selectedPlatform` is never read by the modelled code).
- Framework effects are not modelled: React's router, the language context hook and `useEffect`.
  - `selectedLanguage` starts at the context's language, which the constructor takes as a parameter.
  - Navigation is returned as a `Navigation` value instead of being pushed.
- React batches state updates. The model applies `setIsSubmitting` and `setError` to the fields at once. It does not model a second click arriving before the re-render that makes `isSubmitting` visible.
- Percent-encoding and `URLSearchParams.toString()` are not modelled. `HomeForm.Url` takes the path-segment encoding and the query serialisation as parameters.
- WikiPageReadsSubmittedOptions: relates the query as a list of pairs to what the wiki page reads. It assumes that the browser's query decoding inverts the serialisation.
- Reading a folder for a local repository (the `webkitRelativePath` handling) and console logging are left out. Neither affects the returned values.
- Strings are sequences of Unicode scalar values, while JavaScript strings are sequences of UTF-16 code units that may hold lone surrogates. Every separator, prefix and suffix the page compares with (`/`, `.`, the three URL prefixes, `.git`, `{name}` braces) is ASCII, so the results agree on all inputs a scalar-value string can express.
- Translate: parameters are strings, and the source's `String(paramValue)` conversion of numbers is not modelled.
- Translate: parameters come in the order of the given sequence. JavaScript's `Object.entries` puts integer-like keys first.
- Translate: `k in value` also finds inherited properties. Their values are never strings, so `t` still returns the key for them.
- Translate: JSON arrays in the catalogue are treated like other non-object values. The source would index into them.
- The text-field and option setters other than the two engine checkboxes are plain assignments and are not modelled: repository input, token, local-repository toggle, model and language.

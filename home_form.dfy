/** The landing page's form (src/app/page.tsx): its state, the submit handler
    `handleFormSubmit` with the query it assembles, and the two engine
    checkboxes. The repository page (src/app/[owner]/[repo]/page.tsx) reads
    that query back; `ReadWikiRequest` models that reading side. */
module HomeForm {
  import opened Optional
  import opened JsString
  import opened RepoInput

  /** An ordered list of query parameters, as `URLSearchParams` keeps them. */
  type Query = seq<(string, string)>

  /** The `URLSearchParams` buffer the submit handler appends to. */
  class SearchParams {
    var entries: Query

    constructor ()
      ensures entries == []
    {
      entries := [];
    }

    /** `params.append(name, value)`. */
    method Append(name: string, value: string)
      modifies this
      ensures entries == old(entries) + [(name, value)]
    {
      entries := entries + [(name, value)];
    }
  }

  /** `searchParams.get(name)`: the value of the first parameter called `name`. */
  function ParamGet(q: Query, name: string): Option<string>
  {
    if q == [] then None
    else if q[0].0 == name then Some(q[0].1)
    else ParamGet(q[1..], name)
  }

  /** `ParamGet` finds the first parameter of that name, and finds nothing
      exactly when no parameter has that name. */
  lemma {:induction false} ParamGetFirst(q: Query, name: string)
    ensures ParamGet(q, name).None? <==> forall i :: 0 <= i < |q| ==> q[i].0 != name
    ensures ParamGet(q, name).Some? ==>
              exists i :: 0 <= i < |q| && q[i] == (name, ParamGet(q, name).value)
                          && forall j :: 0 <= j < i ==> q[j].0 != name
  {
    if q != [] && q[0].0 != name {
      ParamGetFirst(q[1..], name);
      assert forall i :: 1 <= i < |q| ==> q[i] == q[1..][i - 1];
      if ParamGet(q, name).Some? {
        var i :| 0 <= i < |q[1..]| && q[1..][i] == (name, ParamGet(q, name).value)
                 && forall j :: 0 <= j < i ==> q[1..][j].0 != name;
        assert q[i + 1] == (name, ParamGet(q, name).value);
        assert forall j :: 0 <= j < i + 1 ==> q[j].0 != name;
      }
    }
  }

  /** Looking a name up in two lists one after the other: the first list wins. */
  lemma {:induction false} ParamGetAppend(a: Query, b: Query, name: string)
    ensures ParamGet(a + b, name) == if ParamGet(a, name).Some? then ParamGet(a, name) else ParamGet(b, name)
  {
    if a != [] {
      assert (a + b)[0] == a[0];
      assert (a + b)[1..] == a[1..] + b;
      if a[0].0 != name {
        ParamGetAppend(a[1..], b, name);
        assert ParamGet(a + b, name) == ParamGet(a[1..] + b, name);
        assert ParamGet(a, name) == ParamGet(a[1..], name);
      }
    } else {
      assert a + b == b;
    }
  }

  /** The name under which the access token travels for each platform; a
      local repository has none. */
  function TokenParamName(t: RepoType): Option<string> {
    match t
    case GitHub => Some("github_token")
    case GitLab => Some("gitlab_token")
    case Bitbucket => Some("bitbucket_token")
    case Local => None
  }

  /** The query `handleFormSubmit` builds for a parsed repository. */
  function QueryParams(repo: ParsedRepo, showTokenInputs: bool, accessToken: string,
                       localOllama: bool, useOpenRouter: bool, openRouterModel: string,
                       language: string): Query
  {
    TokenParams(repo.repoType, showTokenInputs, accessToken)
    + [("type", TypeName(repo.repoType))]
    + (if localOllama then [("local_ollama", "true")] else [])
    + (if useOpenRouter then [("use_openrouter", "true"), ("openrouter_model", openRouterModel)] else [])
    + [("language", language)]
  }

  function TokenParams(t: RepoType, showTokenInputs: bool, accessToken: string): Query {
    if showTokenInputs && accessToken != "" && TokenParamName(t).Some?
    then [(TokenParamName(t).value, accessToken)]
    else []
  }

  /** The query parameter names the form can produce. */
  const QueryNames: set<string> :=
    {"github_token", "gitlab_token", "bitbucket_token", "type", "local_ollama",
     "use_openrouter", "openrouter_model", "language"}

  /** What the assembled query holds, parameter by parameter: a token only
      when the token inputs are shown and the token is non-empty, under the
      name of the parsed platform (none for a local repository); `type`
      always; `local_ollama=true` only under that flag; `use_openrouter=true`
      and `openrouter_model` together and only under that flag; and
      `language` last. */
  lemma QueryParamsContents(repo: ParsedRepo, showTokenInputs: bool, accessToken: string,
                            localOllama: bool, useOpenRouter: bool, openRouterModel: string,
                            language: string)
    ensures var q := QueryParams(repo, showTokenInputs, accessToken, localOllama, useOpenRouter,
                                 openRouterModel, language);
            var tokenSent := showTokenInputs && accessToken != "";
            && ParamGet(q, "github_token") == (if tokenSent && repo.repoType == GitHub then Some(accessToken) else None)
            && ParamGet(q, "gitlab_token") == (if tokenSent && repo.repoType == GitLab then Some(accessToken) else None)
            && ParamGet(q, "bitbucket_token") == (if tokenSent && repo.repoType == Bitbucket then Some(accessToken) else None)
            && ParamGet(q, "type") == Some(TypeName(repo.repoType))
            && ParamGet(q, "local_ollama") == (if localOllama then Some("true") else None)
            && ParamGet(q, "use_openrouter") == (if useOpenRouter then Some("true") else None)
            && ParamGet(q, "openrouter_model") == (if useOpenRouter then Some(openRouterModel) else None)
            && ParamGet(q, "language") == Some(language)
            && q[|q| - 1] == ("language", language)
  {
    QueryTokenParams(repo, showTokenInputs, accessToken, localOllama, useOpenRouter, openRouterModel, language);
    QueryEngineParams(repo, showTokenInputs, accessToken, localOllama, useOpenRouter, openRouterModel, language);
    QueryTypeAndLanguage(repo, showTokenInputs, accessToken, localOllama, useOpenRouter, openRouterModel, language);
  }

  /** The token parameters of the query. */
  lemma QueryTokenParams(repo: ParsedRepo, showTokenInputs: bool, accessToken: string,
                            localOllama: bool, useOpenRouter: bool, openRouterModel: string,
                            language: string)
    ensures var q := QueryParams(repo, showTokenInputs, accessToken, localOllama, useOpenRouter,
                                 openRouterModel, language);
            var tokenSent := showTokenInputs && accessToken != "";
            && ParamGet(q, "github_token") == (if tokenSent && repo.repoType == GitHub then Some(accessToken) else None)
            && ParamGet(q, "gitlab_token") == (if tokenSent && repo.repoType == GitLab then Some(accessToken) else None)
            && ParamGet(q, "bitbucket_token") == (if tokenSent && repo.repoType == Bitbucket then Some(accessToken) else None)
  {
    QueryTokenParam(repo, showTokenInputs, accessToken, localOllama, useOpenRouter, openRouterModel, language, GitHub);
    QueryTokenParam(repo, showTokenInputs, accessToken, localOllama, useOpenRouter, openRouterModel, language, GitLab);
    QueryTokenParam(repo, showTokenInputs, accessToken, localOllama, useOpenRouter, openRouterModel, language, Bitbucket);
  }

  /** The query as its five groups, in order, with what a lookup finds in
      each: the token under the platform's name, `type`, `local_ollama`, the
      two OpenRouter parameters, and `language`. */
  lemma QueryParts(repo: ParsedRepo, showTokenInputs: bool, accessToken: string,
                   localOllama: bool, useOpenRouter: bool, openRouterModel: string,
                   language: string)
    returns (tok: Query, ty: Query, lo: Query, ur: Query, la: Query)
    ensures QueryParams(repo, showTokenInputs, accessToken, localOllama, useOpenRouter,
                        openRouterModel, language) == tok + ty + lo + ur + la
    ensures forall n :: ParamGet(tok, n)
                        == if showTokenInputs && accessToken != "" && TokenParamName(repo.repoType) == Some(n)
                           then Some(accessToken) else None
    ensures forall n :: ParamGet(ty, n) == if n == "type" then Some(TypeName(repo.repoType)) else None
    ensures forall n :: ParamGet(lo, n) == if localOllama && n == "local_ollama" then Some("true") else None
    ensures forall n :: ParamGet(ur, n)
                        == if useOpenRouter && n == "use_openrouter" then Some("true")
                           else if useOpenRouter && n == "openrouter_model" then Some(openRouterModel)
                           else None
    ensures la == [("language", language)]
    ensures forall n :: ParamGet(la, n) == if n == "language" then Some(language) else None
  {
    tok := TokenParams(repo.repoType, showTokenInputs, accessToken);
    ty := [("type", TypeName(repo.repoType))];
    lo := if localOllama then [("local_ollama", "true")] else [];
    ur := if useOpenRouter then [("use_openrouter", "true"), ("openrouter_model", openRouterModel)] else [];
    la := [("language", language)];
    GetOne("type", TypeName(repo.repoType));
    GetOne("local_ollama", "true");
    GetOne("language", language);
    GetTwo("use_openrouter", "true", "openrouter_model", openRouterModel);
    if TokenParamName(repo.repoType).Some? {
      GetOne(TokenParamName(repo.repoType).value, accessToken);
    }
  }

  /** The token parameter of one hosting platform `t`. */
  lemma QueryTokenParam(repo: ParsedRepo, showTokenInputs: bool, accessToken: string,
                        localOllama: bool, useOpenRouter: bool, openRouterModel: string,
                        language: string, t: RepoType)
    requires t != Local
    ensures var q := QueryParams(repo, showTokenInputs, accessToken, localOllama, useOpenRouter,
                                 openRouterModel, language);
            ParamGet(q, TokenParamName(t).value)
            == if showTokenInputs && accessToken != "" && repo.repoType == t then Some(accessToken) else None
  {
    var tok, ty, lo, ur, la := QueryParts(repo, showTokenInputs, accessToken, localOllama, useOpenRouter,
                                          openRouterModel, language);
    GetFromParts(tok, ty, lo, ur, la, TokenParamName(t).value);
  }

  /** The engine parameters of the query. */
  lemma QueryEngineParams(repo: ParsedRepo, showTokenInputs: bool, accessToken: string,
                            localOllama: bool, useOpenRouter: bool, openRouterModel: string,
                            language: string)
    ensures var q := QueryParams(repo, showTokenInputs, accessToken, localOllama, useOpenRouter,
                                 openRouterModel, language);
            && ParamGet(q, "local_ollama") == (if localOllama then Some("true") else None)
            && ParamGet(q, "use_openrouter") == (if useOpenRouter then Some("true") else None)
            && ParamGet(q, "openrouter_model") == (if useOpenRouter then Some(openRouterModel) else None)
  {
    var tok, ty, lo, ur, la := QueryParts(repo, showTokenInputs, accessToken, localOllama, useOpenRouter,
                                          openRouterModel, language);
    var q := tok + ty + lo + ur + la;
    assert ParamGet(q, "local_ollama") == (if localOllama then Some("true") else None) by {
      assert ParamGet(tok, "local_ollama").None? && ParamGet(ty, "local_ollama").None?;
      GetFromParts(tok, ty, lo, ur, la, "local_ollama");
    }
    assert ParamGet(q, "use_openrouter") == (if useOpenRouter then Some("true") else None) by {
      assert ParamGet(tok, "use_openrouter").None? && ParamGet(ty, "use_openrouter").None? && ParamGet(lo, "use_openrouter").None?;
      GetFromParts(tok, ty, lo, ur, la, "use_openrouter");
    }
    assert ParamGet(q, "openrouter_model") == (if useOpenRouter then Some(openRouterModel) else None) by {
      assert ParamGet(tok, "openrouter_model").None? && ParamGet(ty, "openrouter_model").None? && ParamGet(lo, "openrouter_model").None?;
      GetFromParts(tok, ty, lo, ur, la, "openrouter_model");
    }
  }

  /** The type and language parameters of the query. */
  lemma QueryTypeAndLanguage(repo: ParsedRepo, showTokenInputs: bool, accessToken: string,
                            localOllama: bool, useOpenRouter: bool, openRouterModel: string,
                            language: string)
    ensures var q := QueryParams(repo, showTokenInputs, accessToken, localOllama, useOpenRouter,
                                 openRouterModel, language);
            && ParamGet(q, "type") == Some(TypeName(repo.repoType))
            && ParamGet(q, "language") == Some(language)
            && q[|q| - 1] == ("language", language)
  {
    var tok, ty, lo, ur, la := QueryParts(repo, showTokenInputs, accessToken, localOllama, useOpenRouter,
                                          openRouterModel, language);
    GetFromParts(tok, ty, lo, ur, la, "type");
    GetFromParts(tok, ty, lo, ur, la, "language");
  }

  /** The assembled query uses no parameter name besides the eight above. */
  lemma QueryParamsNames(repo: ParsedRepo, showTokenInputs: bool, accessToken: string,
                         localOllama: bool, useOpenRouter: bool, openRouterModel: string,
                         language: string)
    ensures var q := QueryParams(repo, showTokenInputs, accessToken, localOllama, useOpenRouter,
                                 openRouterModel, language);
            forall i :: 0 <= i < |q| ==> q[i].0 in QueryNames
  {
  }

  /** Looking a name up in a one-parameter list. */
  lemma GetOne(k: string, v: string)
    ensures forall n :: ParamGet([(k, v)], n) == if k == n then Some(v) else None
  {
    assert [(k, v)][1..] == [];
  }

  /** Looking a name up in a two-parameter list. */
  lemma GetTwo(k1: string, v1: string, k2: string, v2: string)
    ensures forall n :: ParamGet([(k1, v1), (k2, v2)], n)
                        == if k1 == n then Some(v1) else if k2 == n then Some(v2) else None
  {
    assert [(k1, v1), (k2, v2)][1..] == [(k2, v2)];
    GetOne(k2, v2);
  }

  /** Looking a name up in five lists one after the other. */
  lemma GetFromParts(tok: Query, ty: Query, lo: Query, ur: Query, la: Query, n: string)
    ensures ParamGet(tok + ty + lo + ur + la, n)
            == if ParamGet(tok, n).Some? then ParamGet(tok, n)
               else if ParamGet(ty, n).Some? then ParamGet(ty, n)
               else if ParamGet(lo, n).Some? then ParamGet(lo, n)
               else if ParamGet(ur, n).Some? then ParamGet(ur, n)
               else ParamGet(la, n)
  {
    ParamGetAppend(tok + ty + lo + ur, la, n);
    ParamGetAppend(tok + ty + lo, ur, n);
    ParamGetAppend(tok + ty, lo, n);
    ParamGetAppend(tok, ty, n);
  }

  /** The options the repository page takes from the query, with its
      defaults: `searchParams.get(name) || default`, and `=== 'true'` for the
      two flags. */
  datatype WikiRequest = WikiRequest(githubToken: string, gitlabToken: string, bitbucketToken: string,
                                     repoType: string, localOllama: bool, useOpenRouter: bool,
                                     openRouterModel: string, language: string)

  /** `get(name) || fallback`: a missing or empty value gives the fallback. */
  function GetOr(q: Query, name: string, fallback: string): string {
    match ParamGet(q, name)
    case Some(v) => if v != "" then v else fallback
    case None => fallback
  }

  function ReadWikiRequest(q: Query): WikiRequest {
    WikiRequest(GetOr(q, "github_token", ""), GetOr(q, "gitlab_token", ""), GetOr(q, "bitbucket_token", ""),
                GetOr(q, "type", "github"), ParamGet(q, "local_ollama") == Some("true"),
                ParamGet(q, "use_openrouter") == Some("true"),
                GetOr(q, "openrouter_model", "openai/gpt-4o"), GetOr(q, "language", "en"))
  }

  /** The repository page recovers what the form sent: the token under the
      parsed platform only, the platform type, both engine flags, the model
      name when OpenRouter is used (its default otherwise, or when the name is
      empty) and the language (English when it is empty). */
  lemma WikiPageReadsSubmittedOptions(repo: ParsedRepo, showTokenInputs: bool, accessToken: string,
                                      localOllama: bool, useOpenRouter: bool, openRouterModel: string,
                                      language: string)
    ensures var tokenSent := showTokenInputs && accessToken != "";
            ReadWikiRequest(QueryParams(repo, showTokenInputs, accessToken, localOllama, useOpenRouter,
                                        openRouterModel, language))
            == WikiRequest(if tokenSent && repo.repoType == GitHub then accessToken else "",
                           if tokenSent && repo.repoType == GitLab then accessToken else "",
                           if tokenSent && repo.repoType == Bitbucket then accessToken else "",
                           TypeName(repo.repoType), localOllama, useOpenRouter,
                           if useOpenRouter && openRouterModel != "" then openRouterModel else "openai/gpt-4o",
                           if language != "" then language else "en")
  {
    QueryParamsContents(repo, showTokenInputs, accessToken, localOllama, useOpenRouter, openRouterModel, language);
  }

  /** With the engine flags exclusive, the query never asks for both engines. */
  lemma ExclusiveFlagsExclusiveQuery(repo: ParsedRepo, showTokenInputs: bool, accessToken: string,
                                     localOllama: bool, useOpenRouter: bool, openRouterModel: string,
                                     language: string)
    requires !(localOllama && useOpenRouter)
    ensures var q := QueryParams(repo, showTokenInputs, accessToken, localOllama, useOpenRouter,
                                 openRouterModel, language);
            ParamGet(q, "local_ollama").None? || ParamGet(q, "use_openrouter").None?
  {
    QueryParamsContents(repo, showTokenInputs, accessToken, localOllama, useOpenRouter, openRouterModel, language);
  }

  /** Where a successful submit goes: `/<owner>/<repo>?<query>`, which `Url`
      renders as text. */
  datatype Navigation = Navigation(owner: string, repo: string, query: Query)

  /** The navigation target as text, given the percent-encoding of a path
      segment and the serialisation of a query. */
  function Url(nav: Navigation, encode: string -> string, serialize: Query -> string): string {
    "/" + encode(nav.owner) + "/" + encode(nav.repo) + "?" + serialize(nav.query)
  }

  /** A local path is submitted as `/local/<last segment>` with type `local`
      and never carries a token. */
  lemma LocalSubmission(input: string, showTokenInputs: bool, accessToken: string,
                        localOllama: bool, useOpenRouter: bool, openRouterModel: string,
                        language: string)
    ensures var p := ParseRepositoryInput(input, true).value;
            var q := QueryParams(p, showTokenInputs, accessToken, localOllama, useOpenRouter,
                                 openRouterModel, language);
            && p.owner == "local" && IsLastSegment(Trim(input), p.repo)
            && ParamGet(q, "type") == Some("local")
            && ParamGet(q, "github_token").None? && ParamGet(q, "gitlab_token").None?
            && ParamGet(q, "bitbucket_token").None?
  {
    var p := ParseRepositoryInput(input, true).value;
    ParseResultShape(input, true);
    QueryParamsContents(p, showTokenInputs, accessToken, localOllama, useOpenRouter, openRouterModel, language);
  }

  const InvalidRepositoryMessage: string :=
    "Invalid repository format. Please provide a valid repository path or URL."

  const DefaultRepositoryInput: string := "https://github.com/AsyncFuncAI/deepwiki-open"
  const DefaultOpenRouterModel: string := "openai/gpt-4o"

  /** The form's state: one field per `useState` the submit handler and the
      engine checkboxes use. */
  class HomePage {
    var repositoryInput: string
    var showTokenInputs: bool
    var localOllama: bool
    var useOpenRouter: bool
    var openRouterModel: string
    var accessToken: string
    var error: Option<string>
    var isSubmitting: bool
    var selectedLanguage: string
    var isLocalRepo: bool

    /** The two engine checkboxes are never both ticked. */
    predicate EngineFlagsExclusive()
      reads this
    {
      !(localOllama && useOpenRouter)
    }

    /** The initial state, with the language taken from the language context. */
    constructor (language: string)
      ensures repositoryInput == DefaultRepositoryInput && !showTokenInputs
      ensures !localOllama && !useOpenRouter && openRouterModel == DefaultOpenRouterModel
      ensures accessToken == "" && error == None && !isSubmitting
      ensures selectedLanguage == language && !isLocalRepo
      ensures EngineFlagsExclusive()
    {
      repositoryInput := DefaultRepositoryInput;
      showTokenInputs := false;
      localOllama := false;
      useOpenRouter := false;
      openRouterModel := DefaultOpenRouterModel;
      accessToken := "";
      error := None;
      isSubmitting := false;
      selectedLanguage := language;
      isLocalRepo := false;
    }

    /** `handleFormSubmit`: ignored while a submission is in progress; an
        unparsable input sets the error and re-enables the form; otherwise the
        form stays disabled and the page navigates to `/<owner>/<repo>?<query>`. */
    method HandleFormSubmit() returns (nav: Option<Navigation>)
      modifies this`isSubmitting, this`error
      ensures old(isSubmitting) ==> nav == None && isSubmitting && error == old(error)
      ensures !old(isSubmitting) ==>
                match old(ParseRepositoryInput(repositoryInput, isLocalRepo))
                case None =>
                  nav == None && !isSubmitting && error == Some(InvalidRepositoryMessage)
                case Some(p) =>
                  && nav == Some(Navigation(p.owner, p.repo,
                                            QueryParams(p, showTokenInputs, accessToken, localOllama,
                                                        useOpenRouter, openRouterModel, selectedLanguage)))
                  && isSubmitting && error == old(error)
      ensures EngineFlagsExclusive() && nav.Some? ==>
                ParamGet(nav.value.query, "local_ollama").None? || ParamGet(nav.value.query, "use_openrouter").None?
    {
      if isSubmitting {
        return None;
      }
      isSubmitting := true;
      var parsed := ParseRepositoryInput(repositoryInput, isLocalRepo);
      nav := SubmitParsed(parsed);
      if parsed.Some? && EngineFlagsExclusive() {
        ExclusiveFlagsExclusiveQuery(parsed.value, showTokenInputs, accessToken, localOllama,
                                     useOpenRouter, openRouterModel, selectedLanguage);
      }
    }

    /** The rest of `handleFormSubmit` once the input is parsed: the error
        path, or the query and the navigation target. */
    method SubmitParsed(parsed: Option<ParsedRepo>) returns (nav: Option<Navigation>)
      modifies this`isSubmitting, this`error
      ensures match parsed
              case None =>
                nav == None && !isSubmitting && error == Some(InvalidRepositoryMessage)
              case Some(p) =>
                && nav == Some(Navigation(p.owner, p.repo,
                                          QueryParams(p, showTokenInputs, accessToken, localOllama,
                                                      useOpenRouter, openRouterModel, selectedLanguage)))
                && isSubmitting == old(isSubmitting) && error == old(error)
    {
      match parsed
      case None =>
        error := Some(InvalidRepositoryMessage);
        isSubmitting := false;
        nav := None;
      case Some(p) =>
        var query := BuildQuery(p);
        nav := Some(Navigation(p.owner, p.repo, query));
    }

    /** The query-building part of `handleFormSubmit`: appends the
        parameters to a fresh `URLSearchParams` in the source's order. */
    method BuildQuery(p: ParsedRepo) returns (query: Query)
      ensures query == QueryParams(p, showTokenInputs, accessToken, localOllama,
                                   useOpenRouter, openRouterModel, selectedLanguage)
    {
      var params := new SearchParams();
      if showTokenInputs && accessToken != "" {
        if p.repoType == GitHub {
          params.Append("github_token", accessToken);
        } else if p.repoType == GitLab {
          params.Append("gitlab_token", accessToken);
        } else if p.repoType == Bitbucket {
          params.Append("bitbucket_token", accessToken);
        }
      }
      ghost var tok := TokenParams(p.repoType, showTokenInputs, accessToken);
      assert params.entries == tok;
      params.Append("type", TypeName(p.repoType));
      ghost var ty: Query := [("type", TypeName(p.repoType))];
      assert params.entries == tok + ty;
      ghost var lo: Query := if localOllama then [("local_ollama", "true")] else [];
      if localOllama {
        params.Append("local_ollama", "true");
      }
      assert params.entries == tok + ty + lo;
      ghost var ur: Query := if useOpenRouter then [("use_openrouter", "true"), ("openrouter_model", openRouterModel)] else [];
      if useOpenRouter {
        params.Append("use_openrouter", "true");
        params.Append("openrouter_model", openRouterModel);
      }
      assert params.entries == tok + ty + lo + ur;
      params.Append("language", selectedLanguage);
      query := params.entries;
    }

    /** The "local Ollama" checkbox: ticking it unticks OpenRouter. */
    method OnLocalOllamaChange(checked: bool)
      modifies this`localOllama, this`useOpenRouter
      ensures localOllama == checked
      ensures useOpenRouter == (old(useOpenRouter) && !checked)
      ensures EngineFlagsExclusive()
    {
      localOllama := checked;
      if checked {
        useOpenRouter := false;
      }
    }

    /** The "OpenRouter" checkbox: ticking it unticks local Ollama. */
    method OnUseOpenRouterChange(checked: bool)
      modifies this`localOllama, this`useOpenRouter
      ensures useOpenRouter == checked
      ensures localOllama == (old(localOllama) && !checked)
      ensures EngineFlagsExclusive()
    {
      useOpenRouter := checked;
      if checked {
        localOllama := false;
      }
    }
  }
}

/** `fetchGitHubProjects` without the network: the listing response and
    each repository's language response are inputs, and the outcome is the
    enriched project list or the error the script would throw. */
module Fetch {
  import opened Wrappers
  import opened Text
  import opened Repos

  /** A response body as `response.json()` yields it. */
  datatype Json =
    | Unparsable                        // `json()` rejects
    | Null                              // the JSON literal `null`
    | RepoArray(repos: seq<Repo>)       // an array of repository objects
    | Object(message: Option<string>)   // any other object, with its string `message` if it has one
    | Scalar                            // a JSON string, number or boolean

  /** The listing request's outcome. */
  datatype Listing =
    | Unreachable(reason: string)       // `fetch` itself rejected with an error whose message is `reason`
    | Response(status: nat, statusText: string, body: Json)

  /** `response.ok`: the status is in the range 200 to 299. */
  predicate IsOk(status: nat)
  {
    200 <= status <= 299
  }

  /** What the listing step throws, by `error.details.type`. */
  datatype FetchError =
    | ApiError(status: nat, statusText: string, message: string)  // 'api_error'; `message` is `details.message`
    | ParseFailure                                                // the body did not parse
    | NoRepos                                                     // 'no_repos'
    | NoValidRepos                                                // 'no_valid_repos'
    | Thrown(message: string)                                     // an error raised by the runtime

  const UnknownError := "Unknown error"

  /** `errorData.message || 'Unknown error'`, where an unparsable body reads
      as `{}`: the body's message when it is a non-empty string. */
  function ErrorBodyMessage(body: Json): (message: string)
    ensures message != ""
    ensures body.Object? && body.message.Some? && body.message.value != "" ==> message == body.message.value
    ensures !(body.Object? && body.message.Some? && body.message.value != "") ==> message == UnknownError
  {
    match body
    case Object(Some(m)) => if m != "" then m else UnknownError
    case _ => UnknownError
  }

  const ApiErrorPrefix := "GitHub API error: "

  /** `message` reads `GitHub API error: `, then the decimal status, a space
      and the status text. */
  predicate ShowsStatus(message: string, status: nat, statusText: string)
  {
    && |ApiErrorPrefix| + 1 + |statusText| < |message|
    && message[..|ApiErrorPrefix|] == ApiErrorPrefix
    && message[|message| - |statusText| - 1..] == " " + statusText
    && Denotes(message[|ApiErrorPrefix|..|message| - |statusText| - 1], status)
  }

  /** `error.message` of each thrown error: the `api_error` text names the
      status and its text; the other errors the listing step throws carry a
      fixed text; a runtime error keeps its own message. */
  function ErrorMessage(e: FetchError): (message: string)
    ensures e.ApiError? ==> ShowsStatus(message, e.status, e.statusText)
    ensures e.ParseFailure? ==> message == "Failed to parse GitHub API response"
    ensures e.NoRepos? ==> message == "No repositories found"
    ensures e.NoValidRepos? ==> message == "No non-forked repositories found"
    ensures e.Thrown? ==> message == e.message
  {
    match e
    case ApiError(status, statusText, _) =>
      var digits := NatToDecimal(status);
      var m := ApiErrorPrefix + digits + " " + statusText;
      DecimalRoundTrip(status);
      assert m[|ApiErrorPrefix|..|m| - |statusText| - 1] == digits;
      assert m[|m| - |statusText| - 1..] == " " + statusText;
      m
    case ParseFailure => "Failed to parse GitHub API response"
    case NoRepos => "No repositories found"
    case NoValidRepos => "No non-forked repositories found"
    case Thrown(message) => message
  }

  /** Only an error raised by the runtime can have an empty message. */
  lemma ErrorMessageNonEmpty(e: FetchError)
    requires !e.Thrown?
    ensures ErrorMessage(e) != ""
  {
  }

  /** The listing step (lines 117-156 of script.js): classify the response and,
      on success, select the projects. A project list comes out exactly when
      the response is a 2xx array with an eligible repository, and it is the
      selection of that array. */
  function ClassifyListing(listing: Listing): (r: Result<seq<Repo>, FetchError>)
    ensures r.Success? <==>
      listing.Response? && IsOk(listing.status) && listing.body.RepoArray?
      && EligibleRepos(listing.body.repos) != []
    ensures r.Success? ==>
      r.value == SelectProjects(listing.body.repos) && 1 <= |r.value| <= MaxProjects
  {
    match listing
    case Unreachable(reason) => Failure(Thrown(reason))
    case Response(status, statusText, body) =>
      if !IsOk(status) then Failure(ApiError(status, statusText, ErrorBodyMessage(body)))
      else
        match body
        case Unparsable => Failure(ParseFailure)
        case RepoArray(repos) =>
          if repos == [] then Failure(NoRepos)
          else
            var selected := SelectProjects(repos);
            if selected == [] then Failure(NoValidRepos) else Success(selected)
        case _ => Failure(NoRepos)
  }

  /** The failures, one by one: which responses give which error. */
  lemma ClassifyListingFailures(listing: Listing)
    ensures listing.Unreachable? ==> ClassifyListing(listing) == Failure(Thrown(listing.reason))
    ensures listing.Response? && !IsOk(listing.status) ==>
      ClassifyListing(listing) == Failure(ApiError(listing.status, listing.statusText, ErrorBodyMessage(listing.body)))
    ensures listing.Response? && IsOk(listing.status) && listing.body.Unparsable? ==>
      ClassifyListing(listing) == Failure(ParseFailure)
    ensures (listing.Response? && IsOk(listing.status) && !listing.body.Unparsable?
             && (!listing.body.RepoArray? || listing.body.repos == [])) ==>
      ClassifyListing(listing) == Failure(NoRepos)
    ensures (listing.Response? && IsOk(listing.status) && listing.body.RepoArray?
             && listing.body.repos != [] && EligibleRepos(listing.body.repos) == []) ==>
      ClassifyListing(listing) == Failure(NoValidRepos)
  {
  }

  /** The script as written reads `errorData.message` after
      `response.json().catch(() => ({}))`; when a non-2xx body is the JSON
      literal `null`, that read throws a TypeError (the text below is V8's)
      instead of the `api_error`. */
  const NullMessageTypeError := "Cannot read properties of null (reading 'message')"

  function ClassifyListingAsWritten(listing: Listing): (r: Result<seq<Repo>, FetchError>)
    ensures !(listing.Response? && !IsOk(listing.status) && listing.body.Null?) ==>
      r == ClassifyListing(listing)
  {
    if listing.Response? && !IsOk(listing.status) && listing.body.Null? then
      Failure(Thrown(NullMessageTypeError))
    else ClassifyListing(listing)
  }

  /** The per-repository language request's outcome. `keys` are
      `Object.keys` of the parsed body, in response order; a body that does
      not parse, or whose keys cannot be taken, rejects and is `Threw`. */
  datatype LanguagesFetch =
    | Threw
    | Responded(status: nat, keys: seq<string>)

  /** The placeholder language. */
  const FallbackLanguage := "Code"

  /** Lines 161-175 of script.js: the language names, or `['Code']` when the request failed,
      was not 2xx, or named no language. Never empty. */
  function ResolveLanguages(outcome: LanguagesFetch): (languages: seq<string>)
    ensures languages != []
    ensures outcome.Responded? && IsOk(outcome.status) && outcome.keys != [] ==> languages == outcome.keys
    ensures !(outcome.Responded? && IsOk(outcome.status) && outcome.keys != []) ==> languages == [FallbackLanguage]
  {
    match outcome
    case Threw => [FallbackLanguage]
    case Responded(status, keys) =>
      if !IsOk(status) then [FallbackLanguage]
      else if |keys| > 0 then keys else [FallbackLanguage]
  }

  /** A selected repository with its resolved languages (`all_languages`). */
  datatype Project = Project(repo: Repo, languages: seq<string>)

  /** The `Promise.all` over the selection: one project per selected
      repository, in the same order, each with its own language request's
      outcome; no outcome can fail the whole step. */
  function Enrich(selected: seq<Repo>, languagesAt: string -> LanguagesFetch): (projects: seq<Project>)
    ensures |projects| == |selected|
    ensures forall i :: 0 <= i < |projects| ==>
      projects[i].repo == selected[i]
      && projects[i].languages == ResolveLanguages(languagesAt(selected[i].languagesUrl))
      && projects[i].languages != []
  {
    if selected == [] then []
    else
      [Project(selected[0], ResolveLanguages(languagesAt(selected[0].languagesUrl)))]
      + Enrich(selected[1..], languagesAt)
  }

  /** The whole of `fetchGitHubProjects` up to the hand-off to the renderer
      or the error presenter. */
  function FetchGitHubProjects(listing: Listing, languagesAt: string -> LanguagesFetch)
    : (r: Result<seq<Project>, FetchError>)
    ensures r.Failure? <==> ClassifyListing(listing).Failure?
    ensures r.Failure? ==> r.error == ClassifyListing(listing).error
    ensures r.Success? ==> |r.value| == |SelectProjects(listing.body.repos)|
    ensures r.Success? ==> 1 <= |r.value| <= MaxProjects
    ensures r.Success? ==> forall i :: 0 <= i < |r.value| ==>
      && r.value[i].repo == SelectProjects(listing.body.repos)[i]
      && r.value[i].languages == ResolveLanguages(languagesAt(r.value[i].repo.languagesUrl))
      && r.value[i].languages != []
  {
    match ClassifyListing(listing)
    case Failure(e) => Failure(e)
    case Success(selected) => Success(Enrich(selected, languagesAt))
  }
}

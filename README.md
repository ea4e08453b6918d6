# Portfolio projects section, modelled in Dafny

This project models the one structured part of the portfolio site's `script.js`: how the
projects section picks repositories from the GitHub listing and turns them into cards.

- **Listing step** (`fetchGitHubProjects`). The listing response is an input value: the
  request could not be made, or a status, a status text and a body as `response.json()`
  sees it. A non-2xx response becomes an `api_error` whose message defaults to
  `'Unknown error'`. A body that does not parse is a parse failure. An empty or non-array
  body is `no_repos`. Otherwise forks and archived repositories are dropped, the rest are
  stably sorted by star count (highest first) and at most six are kept. An empty
  selection is `no_valid_repos`.
- **Language step**. Each selected repository's language request is an input outcome. It
  resolves to the returned language names in response order, or to `['Code']`. Nothing
  here can fail the whole step, and the projects keep the selection's order.
- **Cards** (`formatProjectName`, `displayProjects`). Kebab-case names become Title Case.
  A missing or empty description becomes `'No description available.'`. A description
  longer than 120 characters is cut to 120 and gets `'...'`. At most three language tags
  are shown, plus a `+N more` tag whose title lists the other languages.
- **Grid** (`displayProjects`, `showApiError`). The container is a class whose children
  are element objects. `AppendChild` follows the DOM rule: an element already present is
  moved, not copied. So the double `appendChild` at lines 268 and 270 leaves exactly one
  card per project, in order. The error panel's detail is the rate-limit notice for a
  403, otherwise the error's message, otherwise nothing.

Modules: `Wrappers` (Option, Result), `Text` (split, join, decimal numbers, ASCII
upper-casing), `Repos` (repository record and selection), `Fetch` (classification,
languages, enrichment), `Cards` (card content), `Grid` (the container, rendering and the
whole load), `Scenarios` (concrete cases).

The model follows the code as written. Some points are easy to misread:
- The error panel shows `error.message`, the `Error`'s own text, such as
  `GitHub API error: 404 Not Found`. The `details.message` that defaults to
  `'Unknown error'` travels in the error record but is never displayed.
- `description || placeholder` and `homepage ? link : ''` test truthiness. An empty
  description string therefore gets the placeholder, and an empty homepage gets no link.
- Repositories with equal star counts keep listing order. The comparator returns 0 on
  ties, and `Array.prototype.sort` is stable. `Repos.SortByStarsCharacterized` shows that
  any stable sort by stars gives the same result.

There is one exception: the defect listed under "## Findings". The whole load,
`Fetch.FetchGitHubProjects` and `Grid.LoadProjects`, is built on the corrected
classification. The code as written is modelled alongside it, in
`Fetch.ClassifyListingAsWritten`.

## Model

| member | source | states |
|---|---|---|
| `Text.Split` | script.js:191 | `split('-')` gives one part more than there are separators; no part holds the separator; parts use only characters of the input |
| `Text.JoinSplit` | script.js:191-193 | joining the parts of a split with the same separator gives back the input |
| `Text.SplitJoin` | script.js:191-193 | splitting a join of separator-free words gives back the words |
| `Text.Upper` | script.js:192 | an ASCII lower-case letter becomes its upper-case letter; every other character is kept |
| `Text.NatToDecimal` | script.js:235 | `${n}` is a non-empty run of digits with no leading zero unless it is `"0"` |
| `Text.JoinCount` | script.js:235 | `join(sep)` adds one copy of the separator between consecutive words and nothing else, so the separator character is counted exactly once per gap |
| `Text.DecimalRoundTrip` | script.js:235 | the decimal text used for `+N more` and the status in the error message denotes the number it renders |
| `Repos.EligibleRepos` | script.js:146 | the filter keeps only repositories that are neither forks nor archived |
| `Repos.EligibleReposSubset` | script.js:146 | the filter invents and duplicates nothing (multiset inclusion) |
| `Repos.EligibleReposKeepsAll` | script.js:146 | every eligible repository is kept as often as it is listed |
| `Repos.SortByStars` | script.js:147 | the sort is a permutation, of the same length, with non-increasing star counts |
| `Repos.SortByStarsStable` | script.js:147 | repositories with equal star counts keep their relative order |
| `Repos.SortByStarsCharacterized` | script.js:147 | any sorted rearrangement that keeps the order within every star count equals `SortByStars`: the stable sort's result is unique |
| `Repos.SelectProjects` | script.js:145-148 | the selection has length min(6, number of eligible); it holds no fork and no archived repository; it is a sub-multiset of the listing; it is sorted by stars |
| `Repos.SelectProjectsKeepsTieOrder` | script.js:145-148 | for every star count, the selected repositories with that count are the first eligible ones of the listing with that count, in listing order, also at the cut-off |
| `Repos.SelectProjectsTakesTop` | script.js:147-148 | an eligible listed repository that was left out has no more stars than any selected one |
| `Fetch.ErrorBodyMessage` | script.js:118-123 | the `api_error` message is the body's non-empty string message, otherwise `'Unknown error'` (an unparsable body reads as `{}`) |
| `Fetch.ClassifyListing` | script.js:117-156 | a project list comes out exactly when the response is 2xx, its body is an array and some repository is eligible; the list is then the selection, with 1 to 6 entries |
| `Fetch.ClassifyListingFailures` | script.js:117-156 | an unreachable listing rethrows; non-2xx gives `api_error` with the status and message; an unparsable body gives the parse failure; an empty or non-array body gives `no_repos`; a non-empty listing without eligible repositories gives `no_valid_repos` |
| `Fetch.ClassifyListingAsWritten` | script.js:118-123 | the code as written agrees with `ClassifyListing` except for a non-2xx response with a JSON `null` body |
| `Fetch.ErrorMessageNonEmpty` | script.js:117-156 | every error the listing step itself throws has a non-empty `message` |
| `Fetch.ResolveLanguages` | script.js:161-175 | the languages are the returned keys when the request succeeded with a 2xx and named some; otherwise `['Code']`; never empty |
| `Fetch.Enrich` | script.js:159-177 | one project per selected repository, same order, each with its own resolved, non-empty language list |
| `Fetch.FetchGitHubProjects` | script.js:112-180 | the whole step fails exactly when classification fails, with the same error; on success it yields 1 to 6 projects in selection order, each with the resolved languages of its own repository's request, never empty |
| `Cards.FormatProjectName` | script.js:189-194 | the title is as long as the name; at each position a hyphen becomes a space, a segment's first character is upper-cased, and every other character is kept |
| `Cards.FormatProjectNameWords` | script.js:189-194 | for a name without spaces, the title's space-separated words are the hyphen-separated segments, each with only its first character upper-cased, as many words as segments |
| `Cards.FormatProjectNameEmpty` | script.js:189-194 | the empty name formats to the empty title |
| `Cards.Capitalize` | script.js:192 | the word keeps its length; its first character is upper-cased and the rest is kept |
| `Cards.ShownDescription` | script.js:218-223 | the placeholder for a missing or empty description; the description itself up to 120 characters; otherwise its first 120 characters followed by `'...'`; never empty and at most 123 characters |
| `Cards.CardLanguages` | script.js:213-216 | the card's languages are the project's when it has some, `['Code']` otherwise |
| `Cards.VisibleTags` | script.js:225-231 | the tags are the first min(3, n) languages, in order |
| `Cards.MoreLanguages` | script.js:233-236 | the `+N more` tag exists exactly when there are more than 3 languages; N is the number beyond 3; its title joins the remaining languages with `', '` |
| `Cards.MoreLabel` | script.js:235 | the tag reads `+`, then digits that denote N, then ` more` |
| `Cards.TagsAccountForAll` | script.js:225-236 | the visible tags followed by the hidden languages are the language list, and tags plus N count every language |
| `Cards.MoreTitleNamesHidden` | script.js:234-236 | when no language name holds a comma, the `+N more` title names exactly N languages |
| `Cards.BuildCard` | script.js:204-265 | the card built with `description` reassigned in place is the card `CardOf` describes |
| `Cards.CardOfEnriched` | script.js:213-257 | a card for an enriched project has a non-empty description of at most 123 characters, 1 to 3 tags that begin its language list, the more-tag exactly beyond 3 languages, and a title as long as the name |
| `Cards.CardOf` | script.js:213-257 | the card's title is `FormatProjectName` of the name; its description is `ShownDescription`, never empty and at most 123 characters; it links the live demo exactly when the homepage is set and non-empty; it links the repository; its tags are `VisibleTags` and its more-tag `MoreLanguages` of the card's languages (`['Code']` for none), so there are min(3, n) tags and the more-tag exists exactly beyond 3 |
| `Cards.CardMoreLabel` | script.js:233-236 | a card whose project has more than 3 languages shows a more-tag whose text is `+`, then the decimal count of languages beyond 3, then ` more` |
| `Fetch.ErrorMessage` | script.js:117-156 | the `api_error` text is `GitHub API error: `, then digits that denote the status, a space and the status text; parse failure, `no_repos` and `no_valid_repos` carry their fixed texts; a runtime error keeps its message |
| `Grid.DetailFor` | script.js:306-322 | the rate-limit detail exactly for a 403 `api_error`; otherwise the error's non-empty message; no detail exactly for a runtime error without a message |
| `Grid.ListingErrorsHaveDetail` | script.js:305-322 | every error raised by the listing classification gets a detail block on the panel |
| `Grid.NullErrorBodyLosesRateLimit` | script.js:118-123 | a 403 with a JSON `null` body loses the rate-limit detail as written and keeps it in the corrected classification |
| `Grid.ProjectsGrid.Clear` | script.js:202 | `innerHTML = ''` leaves the grid with no children |
| `Grid.ProjectsGrid.AppendChild` | script.js:268-270 | appending removes the element from where it is and adds it at the end; children stay distinct |
| `Grid.ProjectsGrid.ShowLoading` | script.js:104-110 | the grid holds only the loading spinner |
| `Grid.ProjectsGrid.DisplayProjects` | script.js:196-271 | after clearing and the double append per project, the grid holds exactly one card per project, in input order, each the project's `CardOf` |
| `Grid.ProjectsGrid.ShowApiError` | script.js:274-373 | the grid is cleared and holds only the error panel, whose detail is `DetailFor` of the error |
| `Grid.LoadProjects` | script.js:100-185 | one load (and each retry) shows the cards of the fetched projects on success and only the error panel on failure |
| `Scenarios.SortExample` | script.js:147 | star counts 3, 10, 1, 10 rank as the first 10, the second 10, 3, 1 |
| `Scenarios.ForksDropped` | script.js:146 | a fork and an archived repository are dropped whatever their stars |
| `Scenarios.LanguageFailureExample` | script.js:172-175 | a repository whose language request throws still appears, with `['Code']` |
| `Scenarios.EmptyListingExample` | script.js:137-142 | an empty listing is `no_repos`, not an empty grid |
| `Scenarios.DescriptionExample` | script.js:219-223 | a 140-character description is cut to 120 and `'...'`; an 80-character one is shown as is |

## Findings

| source | as written | input that shows it | evidently intended | confidence | as-written member | corrected member |
|---|---|---|---|---|---|---|
| script.js:118-123 | `response.json().catch(() => ({}))` only guards a body that does not parse. A non-2xx body that parses to `null` makes `errorData.message` throw a TypeError. The outer catch then shows that TypeError's text, and the rate-limit detail of a 403 is lost. | status 403 with body `null` | an `api_error` with status 403 and message `'Unknown error'`, showing the rate-limit detail | medium, not executed | `Fetch.ClassifyListingAsWritten` | `Fetch.ClassifyListing` |

## Left out

- Network and promise plumbing are not modelled: `fetch`, `await`, `.json()` and the `Promise.all` fan-out. The listing response and each language request's outcome are inputs: `Listing`, and `languagesAt`, a function from a languages URL to `LanguagesFetch`.
- A language body that does not parse, or whose keys cannot be read, is folded into `LanguagesFetch.Threw`, because the script's catch treats it the same way.
- JSON bodies are reduced to the shapes the script distinguishes. Array elements are assumed to be repository objects. A `message` that is not a string is treated as missing.
- `Object.keys` puts integer-like keys first. Language names are not integer-like, so the keys are taken in response order.
- Lengths and `substring(0, 120)` count Dafny characters, not UTF-16 code units, so a cut through a surrogate pair is not modelled.
- `Text.Upper` upper-cases ASCII letters only. Unicode case mapping is not modelled, including mappings that produce several characters.
- The `if (!projectsGrid) return;` guards are left out: the grid is always given.
- Card markup, SVG icons, CSS classes and the error panel's fixed list of causes are not modelled; a card and the panel are records of their fields. The `data-delay` attribute (`index * 0.1`) is also left out.
- `toLocaleDateString` is left out: it depends on the locale and its result is never shown.
- `Fetch.FetchGitHubProjects` and `Grid.LoadProjects` use the corrected `Fetch.ClassifyListing`. For a non-2xx response with a JSON `null` body they show the `api_error` panel, with the rate-limit detail on a 403. The code as written shows the TypeError's text instead, without that detail. `Fetch.ClassifyListingAsWritten` and `Grid.NullErrorBodyLosesRateLimit` model that behaviour, but no as-written load is built on them.
- The retry button's click handler is not modelled as an event. A retry is another call of `Grid.LoadProjects`, whose result does not depend on what the grid held before.
- The `setTimeout` fade-in and `console` logging are left out.
- The rest of `script.js` is not part of this model: menu toggling, smooth scrolling, the nav highlight, scroll animations, the `IntersectionObserver` code and parallax. It is DOM wiring over timers and floating point.

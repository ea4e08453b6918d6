/** The `.projects-grid` container and the three things the script puts in
    it: the loading spinner, the project cards (`displayProjects`) and the
    error panel (`showApiError`). Children are element objects, so that
    appending one that is already there moves it, as the DOM does. */
module Grid {
  import opened Wrappers
  import opened Repos
  import opened Fetch
  import opened Cards

  /** The detail block of the error panel. */
  datatype Detail =
    | RateLimited           // 'Status: Rate Limited'
    | ErrorText(text: string)
    | NoDetail

  const ErrorTitle := "Project Loading Failed"
  const ProfileUrl := "https://github.com/gajedi1?tab=repositories"

  /** The error panel's content; it always carries the retry button. */
  datatype Panel = Panel(title: string, detail: Detail, profileUrl: string)

  /** What an element of the grid shows. */
  datatype Node =
    | Spinner(message: string)
    | ProjectCard(card: Card)
    | ErrorPanel(panel: Panel)

  /** A DOM element; its content is fixed once built. */
  class Element {
    const node: Node

    constructor (node: Node)
      ensures this.node == node
    {
      this.node := node;
    }
  }

  /** Lines 306-322 of script.js: the rate-limit detail for a 403 status, otherwise the
      error's message when it has one, otherwise nothing. */
  function DetailFor(e: FetchError): (d: Detail)
    ensures d == RateLimited <==> e.ApiError? && e.status == 403
    ensures d.ErrorText? ==> d.text == ErrorMessage(e) && d.text != ""
    ensures d == NoDetail <==> e.Thrown? && e.message == ""
  {
    if e.ApiError? && e.status == 403 then RateLimited
    else if ErrorMessage(e) != "" then ErrorText(ErrorMessage(e))
    else NoDetail
  }

  function PanelFor(e: FetchError): Panel
  {
    Panel(ErrorTitle, DetailFor(e), ProfileUrl)
  }

  /** Every error the listing step itself raises gets a detail block; an
      `api_error` that is not a 403 shows its status in the message text. */
  lemma ListingErrorsHaveDetail(listing: Listing)
    requires ClassifyListing(listing).Failure?
    requires !listing.Unreachable?
    ensures DetailFor(ClassifyListing(listing).error) != NoDetail
  {
    ClassifyListingFailures(listing);
  }

  /** The finding at lines 118-123 of script.js: a 403 whose body is JSON `null` loses
      its rate-limit detail as written, and keeps it once `null` reads as
      `{}` like an unparsable body. */
  lemma NullErrorBodyLosesRateLimit(statusText: string)
    ensures DetailFor(ClassifyListingAsWritten(Response(403, statusText, Null)).error) != RateLimited
    ensures DetailFor(ClassifyListing(Response(403, statusText, Null)).error) == RateLimited
    ensures ClassifyListing(Response(403, statusText, Null)) == Failure(ApiError(403, statusText, UnknownError))
  {
  }

  /** The elements, as a sequence of what they show. */
  function NodesOf(elements: seq<Element>): (nodes: seq<Node>)
    ensures |nodes| == |elements|
    ensures forall i :: 0 <= i < |elements| ==> nodes[i] == elements[i].node
  {
    if elements == [] then [] else [elements[0].node] + NodesOf(elements[1..])
  }

  /** No element occurs twice. */
  predicate Distinct(elements: seq<Element>)
  {
    forall i, j :: 0 <= i < j < |elements| ==> elements[i] != elements[j]
  }

  /** `elements` with `e` taken out. */
  function Without(elements: seq<Element>, e: Element): (rest: seq<Element>)
    ensures e !in rest
    ensures e !in elements ==> rest == elements
    ensures forall x :: x in rest ==> x in elements
    ensures Distinct(elements) ==> Distinct(rest)
  {
    if elements == [] then []
    else if elements[0] == e then Without(elements[1..], e)
    else
      assert Distinct(elements) ==> elements[0] !in elements[1..];
      assert Distinct(elements) ==> Distinct(elements[1..]);
      [elements[0]] + Without(elements[1..], e)
  }

  /** The card nodes for a list of projects, in order. */
  function CardNodes(projects: seq<Project>): (nodes: seq<Node>)
    ensures |nodes| == |projects|
    ensures forall i :: 0 <= i < |projects| ==> nodes[i] == ProjectCard(CardOf(projects[i]))
  {
    seq(|projects|, i requires 0 <= i < |projects| => ProjectCard(CardOf(projects[i])))
  }

  const LoadingMessage := "Loading projects from GitHub..."

  class ProjectsGrid {
    var children: seq<Element>

    /** An element is a child at most once. */
    ghost predicate Valid()
      reads this
    {
      Distinct(children)
    }

    function Nodes(): seq<Node>
      reads this
    {
      NodesOf(children)
    }

    constructor ()
      ensures Valid() && children == []
    {
      children := [];
    }

    /** `innerHTML = ''` */
    method Clear()
      modifies this
      ensures Valid() && children == []
    {
      children := [];
    }

    /** `appendChild`: an element already in the grid is first removed from
        where it is, then added at the end. */
    method AppendChild(e: Element)
      requires Valid()
      modifies this
      ensures Valid()
      ensures children == Without(old(children), e) + [e]
    {
      children := Without(children, e) + [e];
    }

    /** The loading state: the grid holds only the spinner. */
    method ShowLoading(message: string)
      modifies this
      ensures Valid() && Nodes() == [Spinner(message)]
    {
      var spinner := new Element(Spinner(message));
      children := [spinner];
    }

    /** `displayProjects`: clear the grid, then one card per project in
        order. Each card is appended twice, and the second append leaves it
        where it is, so the grid ends with exactly one card per project. */
    method DisplayProjects(projects: seq<Project>)
      modifies this
      ensures Valid()
      ensures Nodes() == CardNodes(projects)
    {
      Clear();
      var i := 0;
      while i < |projects|
        invariant 0 <= i <= |projects|
        invariant Valid()
        invariant Nodes() == CardNodes(projects[..i])
      {
        var card := BuildCard(projects[i]);
        var element := new Element(ProjectCard(card));
        ghost var before := children;
        assert element !in before;
        AppendChild(element);
        AppendChild(element);
        WithoutLast(before, element);
        assert children == before + [element];
        NodesOfSnoc(before, element);
        CardNodesSnoc(projects, i);
        i := i + 1;
      }
      assert projects[..i] == projects;
    }

    /** `showApiError`: clear the grid, then the error panel alone. */
    method ShowApiError(e: FetchError)
      modifies this
      ensures Valid()
      ensures Nodes() == [ErrorPanel(PanelFor(e))]
    {
      Clear();
      var detail := NoDetail;
      if e.ApiError? && e.status == 403 {
        detail := RateLimited;
      } else if ErrorMessage(e) != "" {
        detail := ErrorText(ErrorMessage(e));
      }
      var panel := new Element(ErrorPanel(Panel(ErrorTitle, detail, ProfileUrl)));
      AppendChild(panel);
    }
  }

  lemma NodesOfSnoc(elements: seq<Element>, e: Element)
    ensures NodesOf(elements + [e]) == NodesOf(elements) + [e.node]
  {
  }

  lemma CardNodesSnoc(projects: seq<Project>, i: nat)
    requires i < |projects|
    ensures CardNodes(projects[..i + 1]) == CardNodes(projects[..i]) + [ProjectCard(CardOf(projects[i]))]
  {
  }

  lemma {:induction false} WithoutLast(elements: seq<Element>, e: Element)
    requires e !in elements
    ensures Without(elements + [e], e) == elements
  {
    if elements != [] {
      assert (elements + [e])[1..] == elements[1..] + [e];
      WithoutLast(elements[1..], e);
    }
  }

  /** One run of `fetchGitHubProjects` against the given responses, from the
      loading state to the cards or the error panel. A retry runs it again;
      what it leaves depends only on the new responses. */
  method LoadProjects(grid: ProjectsGrid, listing: Listing, languagesAt: string -> LanguagesFetch)
    modifies grid
    ensures grid.Valid()
    ensures match FetchGitHubProjects(listing, languagesAt)
      case Success(projects) => grid.Nodes() == CardNodes(projects)
      case Failure(e) => grid.Nodes() == [ErrorPanel(PanelFor(e))]
  {
    grid.ShowLoading(LoadingMessage);
    var outcome := FetchGitHubProjects(listing, languagesAt);
    match outcome {
      case Success(projects) => grid.DisplayProjects(projects);
      case Failure(e) => grid.ShowApiError(e);
    }
  }
}

/** Concrete cases of the rules, on small inputs. */
module Scenarios {
  import opened Wrappers
  import opened Repos
  import opened Fetch
  import opened Cards

  function Plain(name: string, stars: nat): Repo
  {
    Repo(name, None, None, "https://github.com/gajedi1/" + name,
         "https://api.github.com/repos/gajedi1/" + name + "/languages", stars, false, false)
  }

  /** Star counts 3, 10, 1, 10 rank as the first 10, the second 10, 3, 1. */
  lemma SortExample()
    ensures var a, b, c, d := Plain("a", 3), Plain("b", 10), Plain("c", 1), Plain("d", 10);
      SortByStars([a, b, c, d]) == [b, d, a, c]
  {
    var a, b, c, d := Plain("a", 3), Plain("b", 10), Plain("c", 1), Plain("d", 10);
    var s, t := [a, b, c, d], [b, d, a, c];
    forall k ensures WithStars(k, t) == WithStars(k, s) {
      WithStarsOfFour(k, a, b, c, d);
      WithStarsOfFour(k, b, d, a, c);
      WithStarsSingle(k, a);
      WithStarsSingle(k, b);
      WithStarsSingle(k, c);
      WithStarsSingle(k, d);
    }
    SortByStarsCharacterized(s, t);
  }

  lemma WithStarsOfFour(k: nat, a: Repo, b: Repo, c: Repo, d: Repo)
    ensures WithStars(k, [a, b, c, d])
         == WithStars(k, [a]) + (WithStars(k, [b]) + (WithStars(k, [c]) + WithStars(k, [d])))
  {
    assert [a, b, c, d] == [a] + ([b] + ([c] + [d]));
    WithStarsAppend(k, [c], [d]);
    WithStarsAppend(k, [b], [c] + [d]);
    WithStarsAppend(k, [a], [b] + ([c] + [d]));
  }

  /** A fork and an archived repository are dropped whatever their stars. */
  lemma ForksDropped(fork: Repo, mine: Repo, stale: Repo)
    requires fork.fork && stale.archived && Eligible(mine)
    requires fork.stars > mine.stars && stale.stars > mine.stars
    ensures SelectProjects([fork, mine, stale]) == [mine]
  {
    var s := [fork, mine, stale];
    assert s[1..] == [mine, stale] && s[1..][1..] == [stale] && [stale][1..] == [];
    assert EligibleRepos([stale]) == [];
    assert EligibleRepos([mine, stale]) == [mine] + EligibleRepos([stale]);
    assert EligibleRepos(s) == [] + EligibleRepos([mine, stale]);
    assert SortByStars([mine]) == [mine] by { assert [mine][1..] == []; }
  }

  /** A 140-character description is cut to 120 and '...'; an 80-character
      one is shown as it is. */
  lemma DescriptionExample(long: string, short: string)
    requires |long| == 140 && |short| == 80
    ensures ShownDescription(Some(long)) == long[..120] + "..."
    ensures ShownDescription(Some(short)) == short
  {
  }

  /** A repository whose language request fails still appears, as 'Code'. */
  lemma LanguageFailureExample()
    ensures var r := Plain("site", 2);
      FetchGitHubProjects(Response(200, "OK", RepoArray([r])), _ => Threw)
        == Success([Project(r, ["Code"])])
  {
    var r := Plain("site", 2);
    assert [r][1..] == [];
    assert EligibleRepos([r]) == [r];
    assert SortByStars([r]) == [r];
    assert SelectProjects([r]) == [r];
    assert Enrich([r], _ => Threw) == [Project(r, ["Code"])];
  }

  /** An empty listing is `no_repos`, not an empty grid. */
  lemma EmptyListingExample()
    ensures FetchGitHubProjects(Response(200, "OK", RepoArray([])), _ => Threw) == Failure(NoRepos)
  {
  }
}

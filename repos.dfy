/** The repository listing and the rule that picks the projects to show:
    drop forks and archived repositories, order by star count (highest
    first, ties in listing order) and keep at most six. */
module Repos {
  import opened Wrappers

  /** One entry of the listing, reduced to the fields the projects section
      reads. A missing `description` or `homepage` is `None`. */
  datatype Repo = Repo(
    name: string,
    description: Option<string>,
    homepage: Option<string>,
    htmlUrl: string,
    languagesUrl: string,
    stars: nat,
    fork: bool,
    archived: bool)

  /** The `slice(0, 6)` bound on the number of projects shown. */
  const MaxProjects: nat := 6

  function Min(a: nat, b: nat): nat
  {
    if a <= b then a else b
  }

  predicate IsPrefix<T(==)>(a: seq<T>, b: seq<T>)
  {
    |a| <= |b| && a == b[..|a|]
  }

  /** Neither a fork nor archived. */
  predicate Eligible(r: Repo)
  {
    !r.fork && !r.archived
  }

  /** `repos.filter(repo => !repo.fork && !repo.archived)`: the eligible
      entries, each as often as in the listing, and nothing else. */
  function EligibleRepos(repos: seq<Repo>): (kept: seq<Repo>)
    ensures forall i :: 0 <= i < |kept| ==> Eligible(kept[i])
  {
    if repos == [] then []
    else
      assert repos == [repos[0]] + repos[1..];
      (if Eligible(repos[0]) then [repos[0]] else []) + EligibleRepos(repos[1..])
  }

  /** Filtering invents nothing and duplicates nothing. */
  lemma {:induction false} EligibleReposSubset(repos: seq<Repo>)
    ensures multiset(EligibleRepos(repos)) <= multiset(repos)
  {
    if repos != [] {
      EligibleReposSubset(repos[1..]);
      assert repos == [repos[0]] + repos[1..];
    }
  }

  lemma {:induction false} EligibleReposAppend(a: seq<Repo>, b: seq<Repo>)
    ensures EligibleRepos(a + b) == EligibleRepos(a) + EligibleRepos(b)
  {
    if a == [] {
      assert a + b == b;
    } else {
      assert (a + b)[0] == a[0];
      assert (a + b)[1..] == a[1..] + b;
      EligibleReposAppend(a[1..], b);
    }
  }

  /** Every eligible entry is kept as often as it is listed. */
  lemma {:induction false} EligibleReposKeepsAll(repos: seq<Repo>, r: Repo)
    requires Eligible(r)
    ensures multiset(EligibleRepos(repos))[r] == multiset(repos)[r]
  {
    if repos != [] {
      EligibleReposKeepsAll(repos[1..], r);
      assert repos == [repos[0]] + repos[1..];
    }
  }

  /** The entries with exactly `k` stars, in their order in `s`. */
  function WithStars(k: nat, s: seq<Repo>): (r: seq<Repo>)
    ensures forall i :: 0 <= i < |r| ==> r[i].stars == k
  {
    if s == [] then []
    else
      assert s == [s[0]] + s[1..];
      (if s[0].stars == k then [s[0]] else []) + WithStars(k, s[1..])
  }

  /** An entry with `k` stars that occurs in `s` is among `WithStars(k, s)`. */
  lemma {:induction false} WithStarsHas(k: nat, s: seq<Repo>, j: nat)
    requires j < |s| && s[j].stars == k
    ensures WithStars(k, s) != []
  {
    if j > 0 {
      WithStarsHas(k, s[1..], j - 1);
    }
  }

  lemma {:induction false} WithStarsAppend(k: nat, a: seq<Repo>, b: seq<Repo>)
    ensures WithStars(k, a + b) == WithStars(k, a) + WithStars(k, b)
  {
    if a == [] {
      assert a + b == b;
    } else {
      assert (a + b)[0] == a[0];
      assert (a + b)[1..] == a[1..] + b;
      WithStarsAppend(k, a[1..], b);
    }
  }

  /** Selecting by star count and selecting by eligibility commute. */
  lemma {:induction false} WithStarsEligible(k: nat, s: seq<Repo>)
    ensures WithStars(k, EligibleRepos(s)) == EligibleRepos(WithStars(k, s))
  {
    if s != [] {
      var h, t := s[0], s[1..];
      var kept := if Eligible(h) then [h] else [];
      var starred := if h.stars == k then [h] else [];
      assert EligibleRepos(s) == kept + EligibleRepos(t);
      assert WithStars(k, s) == starred + WithStars(k, t);
      WithStarsAppend(k, kept, EligibleRepos(t));
      EligibleReposAppend(starred, WithStars(k, t));
      WithStarsEligible(k, t);
      assert WithStars(k, kept) == EligibleRepos(starred) by {
        if Eligible(h) { assert kept[1..] == []; }
        if h.stars == k { assert starred[1..] == []; }
      }
    }
  }

  /** Non-increasing star counts. */
  predicate SortedByStars(s: seq<Repo>)
  {
    forall i, j :: 0 <= i < j < |s| ==> s[i].stars >= s[j].stars
  }

  /** Inserts `x` before the first entry that does not have more stars than
      `x`, so that `x` stays ahead of the entries it ties with. */
  function InsertByStars(x: Repo, sorted: seq<Repo>): (r: seq<Repo>)
    ensures |r| == |sorted| + 1
    ensures multiset(r) == multiset(sorted) + multiset{x}
  {
    if sorted == [] then [x]
    else if sorted[0].stars > x.stars then
      assert sorted == [sorted[0]] + sorted[1..];
      [sorted[0]] + InsertByStars(x, sorted[1..])
    else [x] + sorted
  }

  /** Inserting into a sorted sequence keeps it sorted; the result starts
      with `x` or with the old head. */
  lemma {:induction false} InsertByStarsSorted(x: Repo, sorted: seq<Repo>)
    requires SortedByStars(sorted)
    ensures SortedByStars(InsertByStars(x, sorted))
    ensures InsertByStars(x, sorted)[0] == x || InsertByStars(x, sorted)[0] == sorted[0]
  {
    if sorted != [] && sorted[0].stars > x.stars {
      var h, t := sorted[0], sorted[1..];
      TailSorted(sorted);
      InsertByStarsSorted(x, t);
      var rest := InsertByStars(x, t);
      assert InsertByStars(x, sorted) == [h] + rest;
      assert t != [] ==> sorted[1] == t[0];
      ConsSorted(h, rest);
    }
  }

  lemma TailSorted(s: seq<Repo>)
    requires SortedByStars(s) && s != []
    ensures SortedByStars(s[1..])
  {
    forall i, j | 0 <= i < j < |s| - 1 ensures s[1..][i].stars >= s[1..][j].stars {
      assert s[1..][i] == s[i + 1] && s[1..][j] == s[j + 1];
    }
  }

  lemma ConsSorted(h: Repo, s: seq<Repo>)
    requires SortedByStars(s)
    requires s != [] ==> h.stars >= s[0].stars
    ensures SortedByStars([h] + s)
  {
    forall i, j | 0 <= i < j < |s| + 1 ensures ([h] + s)[i].stars >= ([h] + s)[j].stars {
      if i == 0 {
        assert j == 1 || s[0].stars >= s[j - 1].stars;
      }
    }
  }

  /** The order `sort((a, b) => b.stargazers_count - a.stargazers_count)`
      leaves: the sort is stable, so ties keep their order in `s`. */
  function SortByStars(s: seq<Repo>): (r: seq<Repo>)
    ensures |r| == |s|
    ensures multiset(r) == multiset(s)
    ensures SortedByStars(r)
  {
    if s == [] then []
    else
      assert s == [s[0]] + s[1..];
      InsertByStarsSorted(s[0], SortByStars(s[1..]));
      InsertByStars(s[0], SortByStars(s[1..]))
  }

  lemma {:induction false} InsertWithStars(k: nat, x: Repo, sorted: seq<Repo>)
    ensures WithStars(k, InsertByStars(x, sorted))
         == (if x.stars == k then [x] else []) + WithStars(k, sorted)
  {
    var px := if x.stars == k then [x] else [];
    if sorted == [] {
      assert InsertByStars(x, sorted) == [x];
      WithStarsSingle(k, x);
    } else if sorted[0].stars > x.stars {
      var h, t := sorted[0], sorted[1..];
      var rest := InsertByStars(x, t);
      var ph := if h.stars == k then [h] else [];
      assert WithStars(k, InsertByStars(x, sorted)) == ph + WithStars(k, rest) by {
        assert InsertByStars(x, sorted) == [h] + rest;
        WithStarsAppend(k, [h], rest);
        WithStarsSingle(k, h);
      }
      assert WithStars(k, sorted) == ph + WithStars(k, t) by {
        assert sorted == [h] + t;
        WithStarsAppend(k, [h], t);
        WithStarsSingle(k, h);
      }
      InsertWithStars(k, x, t);
      assert px == [] || ph == [];
    } else {
      assert InsertByStars(x, sorted) == [x] + sorted;
      WithStarsAppend(k, [x], sorted);
      WithStarsSingle(k, x);
    }
  }

  lemma WithStarsSingle(k: nat, x: Repo)
    ensures WithStars(k, [x]) == if x.stars == k then [x] else []
  {
    assert [x][1..] == [];
  }

  /** Stability: the entries with any one star count keep their relative
      order. */
  lemma {:induction false} SortByStarsStable(k: nat, s: seq<Repo>)
    ensures WithStars(k, SortByStars(s)) == WithStars(k, s)
  {
    if s != [] {
      SortByStarsStable(k, s[1..]);
      InsertWithStars(k, s[0], SortByStars(s[1..]));
    }
  }

  /** A sorted sequence is fixed by its star-count classes: two sorted
      sequences that agree on the entries of every star count, in order,
      are equal. */
  lemma {:induction false} SortedUnique(a: seq<Repo>, b: seq<Repo>)
    requires SortedByStars(a) && SortedByStars(b)
    requires forall k :: WithStars(k, a) == WithStars(k, b)
    ensures a == b
    decreases |a|
  {
    if a == [] || b == [] {
      if a != [] {
        WithStarsHas(a[0].stars, a, 0);
        assert false;
      } else if b != [] {
        WithStarsHas(b[0].stars, b, 0);
        assert false;
      }
    } else {
      var ka, kb := a[0].stars, b[0].stars;
      StarsBoundedByHead(kb, a);
      StarsBoundedByHead(ka, b);
      assert ka == kb;
      assert WithStars(ka, a)[0] == a[0];
      assert WithStars(kb, b)[0] == b[0];
      assert a[0] == b[0];
      forall k ensures WithStars(k, a[1..]) == WithStars(k, b[1..]) {
        var p := if a[0].stars == k then [a[0]] else [];
        assert WithStars(k, a) == p + WithStars(k, a[1..]);
        assert WithStars(k, b) == p + WithStars(k, b[1..]);
        assert WithStars(k, a[1..]) == WithStars(k, a)[|p|..];
        assert WithStars(k, b[1..]) == WithStars(k, b)[|p|..];
      }
      SortedUnique(a[1..], b[1..]);
      assert a == [a[0]] + a[1..] && b == [b[0]] + b[1..];
    }
  }

  /** In a sorted sequence, no star count that occurs exceeds the head's. */
  lemma {:induction false} StarsBoundedByHead(k: nat, s: seq<Repo>)
    requires SortedByStars(s) && s != []
    requires WithStars(k, s) != []
    ensures k <= s[0].stars
  {
    if s[0].stars != k {
      assert WithStars(k, s) == WithStars(k, s[1..]);
      TailSorted(s);
      StarsBoundedByHead(k, s[1..]);
    }
  }

  /** `SortByStars` is the stable sort: any sorted rearrangement that keeps
      the order of every star-count class is exactly its result. */
  lemma SortByStarsCharacterized(s: seq<Repo>, t: seq<Repo>)
    requires SortedByStars(t)
    requires forall k :: WithStars(k, t) == WithStars(k, s)
    ensures t == SortByStars(s)
  {
    forall k ensures WithStars(k, t) == WithStars(k, SortByStars(s)) {
      SortByStarsStable(k, s);
    }
    SortedUnique(t, SortByStars(s));
  }

  /** A rearrangement of eligible entries holds only eligible entries. */
  lemma EligibleAfterPermutation(a: seq<Repo>, b: seq<Repo>)
    requires multiset(a) == multiset(b)
    requires forall i :: 0 <= i < |b| ==> Eligible(b[i])
    ensures forall i :: 0 <= i < |a| ==> Eligible(a[i])
  {
    forall i | 0 <= i < |a| ensures Eligible(a[i]) {
      assert a[i] in multiset(b);
      var j :| 0 <= j < |b| && b[j] == a[i];
    }
  }

  /** A prefix of a sorted sequence of eligible entries is one too. */
  lemma PrefixKeepsOrder(s: seq<Repo>, n: nat)
    requires n <= |s|
    requires SortedByStars(s)
    requires forall i :: 0 <= i < |s| ==> Eligible(s[i])
    ensures SortedByStars(s[..n])
    ensures forall i :: 0 <= i < n ==> Eligible(s[..n][i])
  {
  }

  /** `filter`, then `sort`, then `slice(0, 6)`. */
  function SelectProjects(listing: seq<Repo>): (selected: seq<Repo>)
    ensures |selected| == Min(MaxProjects, |EligibleRepos(listing)|)
    ensures forall i :: 0 <= i < |selected| ==> !selected[i].fork && !selected[i].archived
    ensures multiset(selected) <= multiset(listing)
    ensures SortedByStars(selected)
  {
    var eligible := EligibleRepos(listing);
    var ranked := SortByStars(eligible);
    var n := Min(MaxProjects, |ranked|);
    assert |ranked| == |eligible|;
    var top := ranked[..n];
    EligibleReposSubset(listing);
    assert ranked == top + ranked[n..];
    EligibleAfterPermutation(ranked, eligible);
    PrefixKeepsOrder(ranked, n);
    top
  }

  /** Ties are settled by listing order, also at the cut-off: the selected
      entries with `k` stars are the first eligible `k`-star entries of the
      listing, in listing order. */
  lemma {:induction false} SelectProjectsKeepsTieOrder(listing: seq<Repo>, k: nat)
    ensures IsPrefix(WithStars(k, SelectProjects(listing)), EligibleRepos(WithStars(k, listing)))
  {
    var ranked := SortByStars(EligibleRepos(listing));
    var top := SelectProjects(listing);
    assert ranked == top + ranked[|top|..];
    WithStarsAppend(k, top, ranked[|top|..]);
    SortByStarsStable(k, EligibleRepos(listing));
    WithStarsEligible(k, listing);
  }

  /** The selection holds the top of the ranking: an eligible entry that was
      listed but left out has no more stars than any selected entry. */
  lemma {:induction false} SelectProjectsTakesTop(listing: seq<Repo>, r: Repo, i: nat)
    requires Eligible(r)
    requires multiset(SelectProjects(listing))[r] < multiset(listing)[r]
    requires i < |SelectProjects(listing)|
    ensures SelectProjects(listing)[i].stars >= r.stars
  {
    var ranked := SortByStars(EligibleRepos(listing));
    assert SelectProjects(listing) == ranked[..Min(MaxProjects, |ranked|)];
    EligibleReposKeepsAll(listing, r);
    SortedHeadDominates(ranked, Min(MaxProjects, |ranked|), r, i);
  }

  /** In a sorted sequence, an entry that a prefix misses has no more stars
      than any entry of the prefix. */
  lemma SortedHeadDominates(s: seq<Repo>, n: nat, r: Repo, i: nat)
    requires SortedByStars(s)
    requires i < n <= |s|
    requires multiset(s[..n])[r] < multiset(s)[r]
    ensures s[i].stars >= r.stars
  {
    assert s == s[..n] + s[n..];
    assert r in multiset(s[n..]);
    var j :| n <= j < |s| && s[j] == r;
  }
}

/** The public project list (project-list-page.jsx): the projects newest first and
    the title/description search over them. */
module ProjectList {
  import C = Common
  import Text
  import B = Backend
  import O = ProjectOrder
  import PM = ProjectManagement

  /** The search of `debouncedSearch`: the lower-cased query occurs in the lower-cased
      title or description. There is no separate case for an empty query. */
  predicate Matches(p: B.Project, query: string)
  {
    Text.Includes(Text.Lower(p.title), Text.Lower(query))
    || Text.Includes(Text.Lower(p.description), Text.Lower(query))
  }

  function Search(ps: seq<B.Project>, query: string): (r: seq<B.Project>)
    ensures C.IsSubsequence(r, ps)
    ensures forall i :: 0 <= i < |r| ==> Matches(r[i], query)
    ensures forall i :: 0 <= i < |ps| && Matches(ps[i], query) ==> ps[i] in r
  {
    C.FilterIsSubsequence(ps, (p: B.Project) => Matches(p, query));
    C.Filter(ps, (p: B.Project) => Matches(p, query))
  }

  /** The search agrees with the project-management page's search box, whose explicit
      empty-query case is therefore redundant. */
  lemma MatchesAgreesWithManagementSearch(p: B.Project, query: string)
    ensures Matches(p, query) <==> PM.MatchesSearch(query, p.title, p.description)
  {
    if query == "" {
      assert Text.Lower(query) == "";
      Text.IncludesEmpty(Text.Lower(p.title));
    }
  }

  /** An empty query keeps every project. */
  lemma EmptyQueryKeepsAll(ps: seq<B.Project>)
    ensures Search(ps, "") == ps
  {
    forall i | 0 <= i < |ps|
      ensures Matches(ps[i], "")
    {
      assert Text.Lower("") == "";
      Text.IncludesEmpty(Text.Lower(ps[i].title));
    }
    C.FilterAll(ps, (p: B.Project) => Matches(p, ""));
  }

  class Page {
    var projects: seq<B.Project>
    var filteredProjects: seq<B.Project>
    var loading: bool
    var error: C.Option<string>
    var searchQuery: string

    constructor ()
      ensures projects == [] && filteredProjects == [] && loading && error == C.None && searchQuery == ""
    {
      projects := [];
      filteredProjects := [];
      loading := true;
      error := C.None;
      searchQuery := "";
    }

    /** `fetchProjects`: on success both lists become the projects newest first; on
        failure the error is set and both lists are left as they are. */
    method FetchProjects(result: C.Result<seq<B.Project>, string>)
      modifies this
      ensures result.Ok? ==> projects == O.SortNewestFirst(result.value) && filteredProjects == projects
      ensures result.Ok? ==> error == old(error)
      ensures result.Err? ==> projects == old(projects) && filteredProjects == old(filteredProjects)
      ensures result.Err? ==> error == C.Some(result.error)
      ensures !loading && searchQuery == old(searchQuery)
    {
      loading := true;
      if result.Ok? {
        projects := O.SortNewestFirst(result.value);
        filteredProjects := projects;
      } else {
        error := C.Some(result.error);
      }
      loading := false;
    }

    /** `handleSearchChange` followed by the search it schedules. */
    method HandleSearchChange(query: string)
      modifies this
      ensures searchQuery == query
      ensures filteredProjects == Search(projects, query)
      ensures projects == old(projects) && loading == old(loading) && error == old(error)
    {
      searchQuery := query;
      filteredProjects := Search(projects, query);
    }
  }

  /** The filtered list is a newest-first subsequence of the fetched projects. */
  lemma SearchKeepsNewestFirst(ps: seq<B.Project>, query: string)
    requires O.NewestFirst(ps)
    ensures O.NewestFirst(Search(ps, query))
  {
    SubsequenceKeepsNewestFirst(Search(ps, query), ps);
  }

  lemma {:induction false} SubsequenceKeepsNewestFirst(a: seq<B.Project>, b: seq<B.Project>)
    requires C.IsSubsequence(a, b) && O.NewestFirst(b)
    ensures O.NewestFirst(a)
    decreases |b|
  {
    if a != [] && b != [] {
      assert O.NewestFirst(b[1..]);
      if a[0] == b[0] && C.IsSubsequence(a[1..], b[1..]) {
        SubsequenceKeepsNewestFirst(a[1..], b[1..]);
        SubsequenceMembers(a[1..], b[1..]);
        forall j | 0 < j < |a|
          ensures a[0].createdAt >= a[j].createdAt
        {
          var m :| 0 <= m < |b[1..]| && b[1..][m] == a[1..][j - 1];
          assert b[m + 1] == a[j];
        }
      } else {
        SubsequenceKeepsNewestFirst(a, b[1..]);
      }
    }
  }

  lemma {:induction false} SubsequenceMembers(a: seq<B.Project>, b: seq<B.Project>)
    requires C.IsSubsequence(a, b)
    ensures forall i :: 0 <= i < |a| ==> exists m :: 0 <= m < |b| && b[m] == a[i]
    decreases |b|
  {
    if a != [] && b != [] {
      if a[0] == b[0] && C.IsSubsequence(a[1..], b[1..]) {
        SubsequenceMembers(a[1..], b[1..]);
        forall i | 0 < i < |a|
          ensures exists m :: 0 <= m < |b| && b[m] == a[i]
        {
          var m :| 0 <= m < |b[1..]| && b[1..][m] == a[1..][i - 1];
          assert b[m + 1] == a[i];
        }
        assert b[0] == a[0];
      } else {
        SubsequenceMembers(a, b[1..]);
        forall i | 0 <= i < |a|
          ensures exists m :: 0 <= m < |b| && b[m] == a[i]
        {
          var m :| 0 <= m < |b[1..]| && b[1..][m] == a[i];
          assert b[m + 1] == a[i];
        }
      }
    }
  }
}

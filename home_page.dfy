/** The landing page's project showcase (home-page.jsx): the latest four projects,
    newest first, and the error and loading state of the fetch. Its status badge is
    the same 0..3 mapping as the "My Projects" page (`MyProjects.RenderProjectStatus`). */
module HomePage {
  import C = Common
  import B = Backend
  import O = ProjectOrder

  class Page {
    var projects: seq<B.Project>
    var loading: bool
    var error: C.Option<string>

    constructor ()
      ensures projects == [] && loading && error == C.None
    {
      projects := [];
      loading := true;
      error := C.None;
    }

    /** `fetchProjects`: on success the latest four projects, newest first; on
        failure the message is kept as the error and the list is left alone. */
    method FetchProjects(result: C.Result<seq<B.Project>, string>)
      modifies this
      ensures result.Ok? ==> projects == O.Latest4(result.value) && error == old(error)
      ensures result.Err? ==> projects == old(projects) && error == C.Some(result.error)
      ensures !loading
    {
      loading := true;
      if result.Ok? {
        projects := O.Latest4(result.value);
      } else {
        error := C.Some(result.error);
      }
      loading := false;
    }
  }

  /** What a successful fetch shows: at most four projects, newest first, all taken
      from the reply, none older than a project left out. */
  lemma ShowcaseProperties(c: Page, reply: seq<B.Project>)
    requires c.projects == O.Latest4(reply)
    ensures |c.projects| == O.Min(4, |reply|)
    ensures O.NewestFirst(c.projects)
    ensures multiset(c.projects) <= multiset(reply)
    ensures forall i, j :: 0 <= i < |c.projects| <= j < |reply| ==>
              O.SortNewestFirst(reply)[j].createdAt <= c.projects[i].createdAt
  {
    O.Latest4SplitsInput(reply);
  }
}

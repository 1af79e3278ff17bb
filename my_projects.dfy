/** A participant's "My Projects" page (my-project-page.jsx): the joined projects,
    their filter, the summary counters, the deadline column and the status badge.
    The search, status and category predicates are the same expressions as on the
    project-management page and are shared with it. */
module MyProjects {
  import C = Common
  import B = Backend
  import PM = ProjectManagement

  /** A joined project as the page keeps it; `earnedRewards` is drawn at random. */
  datatype JoinedProject = JoinedProject(
    id: nat,
    title: string,
    description: string,
    category: string,
    startDate: int,
    expiredAt: int,
    participants: nat,
    reward: int,
    status: int,
    verified: bool,
    earnedRewards: int)

  /** A value of `Math.random()`, the fraction `num / den` in [0, 1). */
  datatype Draw = Draw(num: nat, den: nat)

  predicate ValidDraw(d: Draw)
  {
    d.num < d.den
  }

  /** `calculateEarnedRewards`: `Math.floor(Math.random() * reward)`. */
  function CalculateEarnedRewards(reward: int, d: Draw): (e: int)
    requires ValidDraw(d)
    ensures reward >= 0 ==> 0 <= e && (reward >= 1 ==> e <= reward - 1)
    ensures reward == 0 ==> e == 0
  {
    DrawScaleBounds(d.num, d.den, reward);
    (d.num * reward) / d.den
  }

  /** For `num < den`, `num * reward / den` lies in [0, reward - 1] when the reward is
      positive and is 0 when it is 0. */
  lemma DrawScaleBounds(num: nat, den: nat, reward: int)
    requires num < den
    ensures reward >= 0 ==> 0 <= (num * reward) / den
    ensures reward >= 1 ==> (num * reward) / den <= reward - 1
    ensures reward == 0 ==> (num * reward) / den == 0
  {
    var q := (num * reward) / den;
    assert num * reward == q * den + (num * reward) % den;
    if reward >= 0 {
      assert 0 <= num * reward;
    }
    if reward >= 1 {
      assert num * reward < den * reward by {
        assert (den - num) * reward > 0;
      }
      assert q * den <= num * reward;
      if q >= reward {
        assert false;
      }
    }
    if reward == 0 {
      assert num * reward == 0;
    }
  }

  function ToJoined(p: B.Project, d: Draw): JoinedProject
    requires ValidDraw(d)
  {
    JoinedProject(p.id, p.title, p.description, p.category, PM.NsToMs(p.startDate), PM.NsToMs(p.expiredAt),
                  |p.participants|, p.reward, p.status, true, CalculateEarnedRewards(p.reward, d))
  }

  function JoinedViews(ps: seq<B.Project>, draws: seq<Draw>): (r: seq<JoinedProject>)
    requires |draws| == |ps| && forall i :: 0 <= i < |draws| ==> ValidDraw(draws[i])
    ensures |r| == |ps|
  {
    seq(|ps|, i requires 0 <= i < |ps| => ToJoined(ps[i], draws[i]))
  }

  /** `getTotalEarnedRewards`: `reduce` from 0, adding each project's earned reward. */
  function FoldEarned(total: int, ps: seq<JoinedProject>): int
    decreases |ps|
  {
    if ps == [] then total else FoldEarned(total + ps[0].earnedRewards, ps[1..])
  }

  /** The sum of the earned rewards, as a reference for the fold. */
  function SumEarned(ps: seq<JoinedProject>): int
    decreases |ps|
  {
    if ps == [] then 0 else SumEarned(ps[..|ps| - 1]) + ps[|ps| - 1].earnedRewards
  }

  lemma {:induction false} FoldEarnedIsSum(total: int, ps: seq<JoinedProject>)
    ensures FoldEarned(total, ps) == total + SumEarned(ps)
    decreases |ps|
  {
    if ps != [] {
      FoldEarnedIsSum(total + ps[0].earnedRewards, ps[1..]);
      SumEarnedFront(ps);
    }
  }

  lemma {:induction false} SumEarnedFront(ps: seq<JoinedProject>)
    requires ps != []
    ensures SumEarned(ps) == ps[0].earnedRewards + SumEarned(ps[1..])
    decreases |ps|
  {
    if |ps| > 1 {
      SumEarnedFront(ps[..|ps| - 1]);
      assert ps[..|ps| - 1][1..] == ps[1..][..|ps| - 2];
    }
  }

  /** The total is the sum of the earned rewards, and it never exceeds the rewards on
      offer when each earned reward lies in [0, reward]. */
  lemma {:induction false} TotalEarnedBounds(ps: seq<JoinedProject>)
    requires forall i :: 0 <= i < |ps| ==> 0 <= ps[i].earnedRewards <= ps[i].reward
    ensures 0 <= FoldEarned(0, ps) <= SumReward(ps)
    decreases |ps|
  {
    FoldEarnedIsSum(0, ps);
    if ps != [] {
      TotalEarnedBounds(ps[..|ps| - 1]);
      FoldEarnedIsSum(0, ps[..|ps| - 1]);
    }
  }

  function SumReward(ps: seq<JoinedProject>): int
    decreases |ps|
  {
    if ps == [] then 0 else SumReward(ps[..|ps| - 1]) + ps[|ps| - 1].reward
  }

  /** `getActiveProjectsCount`: the joined projects whose status is 1. */
  function ActiveProjectsCount(ps: seq<JoinedProject>): (n: nat)
    ensures n <= |ps|
    ensures n == C.Count(ps, (p: JoinedProject) => p.status == 1)
  {
    C.FilterLength(ps, (p: JoinedProject) => p.status == 1);
    |C.Filter(ps, (p: JoinedProject) => p.status == 1)|
  }

  /** The deadline column: "Completed" for a closed project, otherwise its expiry date. */
  datatype Deadline = Completed | ExpiresOn(ms: int)

  function GetNextDeadline(p: JoinedProject): (r: Deadline)
    ensures r.Completed? <==> p.status == 3
    ensures r.ExpiresOn? ==> r.ms == p.expiredAt
  {
    if p.status == 3 then Completed else ExpiresOn(p.expiredAt)
  }

  /** This page's `renderProjectStatus`: it knows the codes 0..3 only. */
  function RenderProjectStatus(status: int): (r: PM.StatusLabel)
    ensures r == PM.Unknown <==> !(0 <= status <= 3)
  {
    match status
    case 0 => PM.Inactive
    case 1 => PM.Active
    case 2 => PM.Upcoming
    case 3 => PM.Closed
    case _ => PM.Unknown
  }

  /** The two pages' badges agree except on a distributed project (4), which this page
      shows as unknown. */
  lemma BadgesAgreeExceptDistributed(status: int)
    ensures status != 4 ==> RenderProjectStatus(status) == PM.RenderProjectStatus(status)
    ensures RenderProjectStatus(4) == PM.Unknown && PM.RenderProjectStatus(4) == PM.Distributed
  {
  }

  /** A JavaScript value as far as strict equality on it is concerned. */
  datatype JsValue = Num(n: int) | Str(s: string)

  predicate StrictEquals(a: JsValue, b: JsValue)
  {
    a == b
  }

  /** The per-card action guarded by `project.status === "Active"`: the status is a
      number, so the guard is never true and the action is never rendered. */
  lemma ActiveActionNeverShown(p: JoinedProject)
    ensures !StrictEquals(Num(p.status), Str("Active"))
  {
  }

  predicate Shown(p: JoinedProject, query: string, statusFilter: string, categoryFilter: string)
  {
    PM.MatchesSearch(query, p.title, p.description)
    && PM.MatchesStatus(statusFilter, p.status)
    && PM.MatchesCategory(categoryFilter, p.category)
  }

  /** `filteredProjects` over the joined projects. */
  function FilteredProjects(ps: seq<JoinedProject>, query: string, statusFilter: string, categoryFilter: string)
    : (r: seq<JoinedProject>)
    ensures C.IsSubsequence(r, ps)
    ensures forall i :: 0 <= i < |r| ==> Shown(r[i], query, statusFilter, categoryFilter)
    ensures forall i :: 0 <= i < |ps| && Shown(ps[i], query, statusFilter, categoryFilter) ==> ps[i] in r
  {
    var keep := (p: JoinedProject) => Shown(p, query, statusFilter, categoryFilter);
    C.FilterIsSubsequence(ps, keep);
    C.Filter(ps, keep)
  }

  class Page {
    var joinedProjects: seq<JoinedProject>
    var isLoading: bool
    var searchQuery: string
    var statusFilter: string
    var categoryFilter: string

    constructor ()
      ensures joinedProjects == [] && isLoading
      ensures searchQuery == "" && statusFilter == "all" && categoryFilter == "all"
    {
      joinedProjects := [];
      isLoading := true;
      searchQuery := "";
      statusFilter := "all";
      categoryFilter := "all";
    }

    /** The projects listed under the current filters. */
    function Filtered(): seq<JoinedProject>
      reads this
    {
      FilteredProjects(joinedProjects, searchQuery, statusFilter, categoryFilter)
    }

    /** `handleSearchChange`, `handleStatusChange` and `handleCategoryChange`. */
    method SetFilters(query: string, status: string, category: string)
      modifies this
      ensures searchQuery == query && statusFilter == status && categoryFilter == category
      ensures Filtered() == FilteredProjects(old(joinedProjects), query, status, category)
      ensures joinedProjects == old(joinedProjects) && isLoading == old(isLoading)
    {
      searchQuery, statusFilter, categoryFilter := query, status, category;
    }

    /** `fetchProjects`, with one random draw per returned project. */
    method FetchProjects(response: C.Result<seq<B.Project>, string>, draws: seq<Draw>)
      requires response.Ok? ==> |draws| == |response.value|
      requires forall i :: 0 <= i < |draws| ==> ValidDraw(draws[i])
      modifies this
      ensures response.Ok? ==> joinedProjects == JoinedViews(response.value, draws)
      ensures response.Err? ==> joinedProjects == old(joinedProjects)
      ensures !isLoading
      ensures searchQuery == old(searchQuery) && statusFilter == old(statusFilter) && categoryFilter == old(categoryFilter)
    {
      isLoading := true;
      if response.Ok? {
        joinedProjects := JoinedViews(response.value, draws);
      }
      isLoading := false;
    }
  }
}

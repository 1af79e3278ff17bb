/** The community's project-management page (project-management.jsx): the project
    list it fetches, its search/status/category filter, the status badge, the
    community level's reward ceiling, and the request it sends to create a project. */
module ProjectManagement {
  import C = Common
  import Text
  import B = Backend

  type byte = bv8

  const NsPerMs: nat := 1_000_000

  /** Milliseconds to the nanoseconds the backend stores. */
  function MsToNs(ms: int): int
  {
    ms * NsPerMs
  }

  /** Nanoseconds back to the whole milliseconds a `Date` keeps: the quotient is
      truncated toward zero. */
  function NsToMs(ns: int): int
  {
    if ns >= 0 then ns / NsPerMs else -((-ns) / NsPerMs)
  }

  /** A date sent to the backend reads back as the same millisecond. */
  lemma MsNsRoundTrip(ms: int)
    ensures NsToMs(MsToNs(ms)) == ms
  {
    if ms < 0 {
      assert -MsToNs(ms) == (-ms) * NsPerMs;
    }
  }

  /** Reading a non-negative timestamp drops only the sub-millisecond part. */
  lemma NsToMsTruncates(ns: int)
    requires ns >= 0
    ensures MsToNs(NsToMs(ns)) <= ns < MsToNs(NsToMs(ns)) + NsPerMs
  {
  }

  /** A project as the page keeps it after `fetchProjects`. */
  datatype Project = Project(
    id: nat,
    title: string,
    description: string,
    category: string,
    startDate: int,
    expiredAt: int,
    participants: nat,
    reward: int,
    status: int,
    maxParticipants: nat,
    address: string,
    impact: string,
    evidence: seq<B.EvidenceRecord>)

  function ToView(p: B.Project): Project
  {
    Project(p.id, p.title, p.description, p.category, NsToMs(p.startDate), NsToMs(p.expiredAt),
            |p.participants|, p.reward, p.status, p.maxParticipants, p.address, p.impact, p.evidence)
  }

  function Views(ps: seq<B.Project>): (r: seq<Project>)
    ensures |r| == |ps|
  {
    seq(|ps|, i requires 0 <= i < |ps| => ToView(ps[i]))
  }

  /** The search box: an empty query, or a case-insensitive substring of the title
      or of the description. */
  predicate MatchesSearch(query: string, title: string, description: string)
  {
    query == ""
    || Text.Includes(Text.Lower(title), Text.Lower(query))
    || Text.Includes(Text.Lower(description), Text.Lower(query))
  }

  /** The status select: "all", or one of the codes "0".."3". */
  predicate MatchesStatus(filter: string, status: int)
  {
    filter == "all"
    || (filter == "0" && status == 0)
    || (filter == "1" && status == 1)
    || (filter == "2" && status == 2)
    || (filter == "3" && status == 3)
  }

  /** The category select: "all", or the category's name compared case-insensitively. */
  predicate MatchesCategory(filter: string, category: string)
  {
    filter == "all" || Text.Lower(category) == Text.Lower(filter)
  }

  predicate Shown(p: Project, query: string, statusFilter: string, categoryFilter: string)
  {
    MatchesSearch(query, p.title, p.description)
    && MatchesStatus(statusFilter, p.status)
    && MatchesCategory(categoryFilter, p.category)
  }

  /** `filteredProjects`: the projects that pass all three filters, in list order. */
  function FilteredProjects(projects: seq<Project>, query: string, statusFilter: string, categoryFilter: string)
    : (r: seq<Project>)
    ensures C.IsSubsequence(r, projects)
    ensures forall i :: 0 <= i < |r| ==> Shown(r[i], query, statusFilter, categoryFilter)
    ensures forall i :: 0 <= i < |projects| && Shown(projects[i], query, statusFilter, categoryFilter) ==> projects[i] in r
  {
    var keep := (p: Project) => Shown(p, query, statusFilter, categoryFilter);
    C.FilterIsSubsequence(projects, keep);
    C.Filter(projects, keep)
  }

  /** With every filter at its initial value, all projects are listed. */
  lemma InitialFiltersShowAll(projects: seq<Project>)
    ensures FilteredProjects(projects, "", "all", "all") == projects
  {
    C.FilterAll(projects, (p: Project) => Shown(p, "", "all", "all"));
  }

  /** A query matches whenever it occurs, ignoring ASCII case, in the title or description. */
  lemma SearchMatchesOccurrence(query: string, title: string, description: string)
    ensures MatchesSearch(query, title, description) <==>
      query == ""
      || (exists i :: Text.OccursAt(Text.Lower(title), Text.Lower(query), i))
      || (exists i :: Text.OccursAt(Text.Lower(description), Text.Lower(query), i))
  {
    Text.IncludesAt(Text.Lower(title), Text.Lower(query));
    Text.IncludesAt(Text.Lower(description), Text.Lower(query));
  }

  /** A status code filter "0".."3" keeps exactly that status; a project whose status
      lies outside 0..3 (a distributed one, 4) is listed only under "all". */
  lemma StatusFilterExact(filter: string, status: int)
    ensures filter == "0" ==> (MatchesStatus(filter, status) <==> status == 0)
    ensures filter == "3" ==> (MatchesStatus(filter, status) <==> status == 3)
    ensures !(0 <= status <= 3) ==> (MatchesStatus(filter, status) <==> filter == "all")
  {
  }

  datatype StatusLabel = Inactive | Active | Upcoming | Closed | Distributed | Unknown

  /** `renderProjectStatus` on this page: five known codes, anything else unknown. */
  function RenderProjectStatus(status: int): (r: StatusLabel)
    ensures r == Unknown <==> !(0 <= status <= 4)
  {
    match status
    case 0 => Inactive
    case 1 => Active
    case 2 => Upcoming
    case 3 => Closed
    case 4 => Distributed
    case _ => Unknown
  }

  /** The code a known badge stands for. */
  function StatusCode(badge: StatusLabel): int
  {
    match badge
    case Inactive => 0
    case Active => 1
    case Upcoming => 2
    case Closed => 3
    case Distributed => 4
    case Unknown => -1
  }

  /** Distinct known codes get distinct badges: the badge determines the code. */
  lemma RenderProjectStatusInverse(status: int)
    requires 0 <= status <= 4
    ensures StatusCode(RenderProjectStatus(status)) == status
  {
  }

  /** `getMaxReward`: the largest reward a community of the given level may offer. */
  function GetMaxReward(level: string): (r: nat)
    ensures r == 100 || r == 500 || r == 1000 || r == 2000
    ensures level == "silver" ==> r == 500
    ensures level == "gold" ==> r == 1000
    ensures level == "diamond" ==> r == 2000
    ensures level !in {"silver", "gold", "diamond"} ==> r == 100
  {
    match level
    case "bronze" => 100
    case "silver" => 500
    case "gold" => 1000
    case "diamond" => 2000
    case _ => 100
  }

  /** The level's rank: bronze, and any unknown level, count as the lowest. */
  function LevelRank(level: string): nat
  {
    match level
    case "silver" => 1
    case "gold" => 2
    case "diamond" => 3
    case _ => 0
  }

  /** The ceiling orders the levels strictly: one level's ceiling is below another's
      exactly when its rank is, and equal ranks share a ceiling. */
  lemma MaxRewardMonotone(a: string, b: string)
    ensures GetMaxReward(a) < GetMaxReward(b) <==> LevelRank(a) < LevelRank(b)
    ensures LevelRank(a) == LevelRank(b) <==> GetMaxReward(a) == GetMaxReward(b)
  {
  }

  /** The project image picked in the form: none, or a file whose bytes could or
      could not be read. */
  datatype ImageInput = NoImage | ImageFile(read: C.Result<seq<byte>, string>)

  /** The form's values, with dates in milliseconds. */
  datatype ProjectDraft = ProjectDraft(
    title: string,
    description: string,
    startDate: int,
    endDate: int,
    reward: int,
    image: ImageInput,
    category: string,
    maxParticipants: int,
    address: string,
    impact: string)

  /** The parameters of `createProject`; dates in nanoseconds, the image as a Candid option. */
  datatype CreateParams = CreateParams(
    title: string,
    description: string,
    startDate: int,
    expiredAt: int,
    reward: int,
    imageData: seq<seq<byte>>,
    category: string,
    maxParticipants: int,
    address: string,
    impact: string)

  /** A Candid `opt`: `[]` for no image, `[bytes]` for an image (even an empty one). */
  function EncodeImage(image: C.Option<seq<byte>>): (r: seq<seq<byte>>)
    ensures |r| <= 1
  {
    match image
    case None => []
    case Some(bytes) => [bytes]
  }

  function DecodeImage(encoded: seq<seq<byte>>): C.Option<seq<byte>>
  {
    if encoded == [] then C.None else C.Some(encoded[0])
  }

  lemma ImageRoundTrip(image: C.Option<seq<byte>>)
    ensures DecodeImage(EncodeImage(image)) == image
  {
  }

  const LoginFirstMessage: string := "Please login first"
  const ImageErrorPrefix: string := "Failed to process image: "

  /** What `handleCreateProject` sends: nothing without a login or when the image
      cannot be read, otherwise the draft with nanosecond dates and the encoded image. */
  function CreateRequest(hasIdentity: bool, draft: ProjectDraft): (r: C.Result<CreateParams, string>)
    ensures !hasIdentity ==> r == C.Err(LoginFirstMessage)
    ensures hasIdentity && draft.image.ImageFile? && draft.image.read.Err? ==>
              r == C.Err(ImageErrorPrefix + draft.image.read.error)
    ensures r.Ok? ==>
              NsToMs(r.value.startDate) == draft.startDate && NsToMs(r.value.expiredAt) == draft.endDate
              && DecodeImage(r.value.imageData) == (if draft.image.NoImage? then C.None else C.Some(draft.image.read.value))
              && r.value.title == draft.title && r.value.description == draft.description
              && r.value.reward == draft.reward && r.value.category == draft.category
              && r.value.maxParticipants == draft.maxParticipants
              && r.value.address == draft.address && r.value.impact == draft.impact
  {
    if !hasIdentity then C.Err(LoginFirstMessage)
    else if draft.image.ImageFile? && draft.image.read.Err? then C.Err(ImageErrorPrefix + draft.image.read.error)
    else
      var image := if draft.image.NoImage? then C.None else C.Some(draft.image.read.value);
      MsNsRoundTrip(draft.startDate);
      MsNsRoundTrip(draft.endDate);
      C.Ok(CreateParams(draft.title, draft.description, MsToNs(draft.startDate), MsToNs(draft.endDate),
                        draft.reward, EncodeImage(image), draft.category, draft.maxParticipants,
                        draft.address, draft.impact))
  }

  /** The page's state. */
  class Page {
    var projects: seq<Project>
    var isLoading: bool
    var isSubmitting: bool
    var isCreateDialogOpen: bool
    var searchQuery: string
    var statusFilter: string
    var categoryFilter: string

    constructor ()
      ensures projects == [] && isLoading && !isSubmitting && !isCreateDialogOpen
      ensures searchQuery == "" && statusFilter == "all" && categoryFilter == "all"
    {
      projects := [];
      isLoading := true;
      isSubmitting := false;
      isCreateDialogOpen := false;
      searchQuery := "";
      statusFilter := "all";
      categoryFilter := "all";
    }

    /** The list shown under the current filters. */
    function Filtered(): seq<Project>
      reads this
    {
      FilteredProjects(projects, searchQuery, statusFilter, categoryFilter)
    }

    /** `handleSearchChange`, `handleStatusChange` and `handleCategoryChange`: one
        filter changes, and the list shown is the projects under the new filters. */
    method SetFilters(query: string, status: string, category: string)
      modifies this
      ensures searchQuery == query && statusFilter == status && categoryFilter == category
      ensures Filtered() == FilteredProjects(old(projects), query, status, category)
      ensures projects == old(projects) && isLoading == old(isLoading)
      ensures isSubmitting == old(isSubmitting) && isCreateDialogOpen == old(isCreateDialogOpen)
    {
      searchQuery, statusFilter, categoryFilter := query, status, category;
    }

    /** `fetchProjects`: on success the list is replaced by the converted projects;
        on failure it is kept. Loading ends either way. */
    method FetchProjects(response: C.Result<seq<B.Project>, string>)
      modifies this
      ensures response.Ok? ==> projects == Views(response.value)
      ensures response.Err? ==> projects == old(projects)
      ensures !isLoading
      ensures isSubmitting == old(isSubmitting) && isCreateDialogOpen == old(isCreateDialogOpen)
      ensures searchQuery == old(searchQuery) && statusFilter == old(statusFilter) && categoryFilter == old(categoryFilter)
    {
      isLoading := true;
      if response.Ok? {
        projects := Views(response.value);
      }
      isLoading := false;
    }

    /** `handleCreateProject`: sends the request when it can be built; a successful
        creation closes the dialog and asks for the list to be fetched again. */
    method HandleCreateProject(hasIdentity: bool, draft: ProjectDraft, response: C.Result<(), string>)
      returns (sent: C.Option<CreateParams>, refetch: bool)
      modifies this
      ensures CreateRequest(hasIdentity, draft).Ok? ==> sent == C.Some(CreateRequest(hasIdentity, draft).value)
      ensures CreateRequest(hasIdentity, draft).Err? ==> sent == C.None
      ensures refetch <==> sent.Some? && response.Ok?
      ensures isCreateDialogOpen == (if refetch then false else old(isCreateDialogOpen))
      ensures !isSubmitting
      ensures projects == old(projects) && isLoading == old(isLoading)
      ensures searchQuery == old(searchQuery) && statusFilter == old(statusFilter) && categoryFilter == old(categoryFilter)
    {
      isSubmitting := true;
      var request := CreateRequest(hasIdentity, draft);
      if request.Err? {
        sent, refetch := C.None, false;
      } else {
        sent := C.Some(request.value);
        refetch := response.Ok?;
        if refetch {
          isCreateDialogOpen := false;
        }
      }
      isSubmitting := false;
    }
  }
}

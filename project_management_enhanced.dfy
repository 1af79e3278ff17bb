/** The enhanced project-management view (project-management-enhanced.jsx): seeded
    projects, deletion by id, and the Active tab. */
module ProjectManagementEnhanced {
  import C = Common

  datatype Project = Project(
    id: nat,
    title: string,
    description: string,
    category: string,
    startDate: string,
    endDate: string,
    participants: nat,
    reward: nat,
    status: string,
    progress: nat,
    verified: bool)

  /** The five projects the view starts with. */
  function Seeded(): (r: seq<Project>)
    ensures |r| == 5
    ensures forall i :: 0 <= i < |r| ==> r[i].id == i + 1
  {
    [ Project(1, "Community Garden Initiative", "Creating urban gardens in underserved neighborhoods",
              "Agriculture", "2025-05-01", "2025-08-31", 45, 2500, "Active", 35, true),
      Project(2, "Solar Panel Collective", "Group purchasing program for residential solar panels",
              "Energy", "2025-04-15", "2025-07-15", 32, 5000, "Active", 60, true),
      Project(3, "Rainwater Harvesting", "Installing rainwater collection systems in community buildings",
              "Water", "2025-06-01", "2025-09-30", 18, 1800, "Draft", 0, false),
      Project(4, "Sustainable Transportation Network", "Creating a community carpooling and bike-sharing program",
              "Transportation", "2025-05-15", "2025-11-15", 56, 3200, "Active", 25, true),
      Project(5, "Zero Waste Business Program", "Helping local businesses reduce waste and implement sustainable practices",
              "Waste", "2025-07-01", "2025-12-31", 12, 4500, "Pending", 0, false) ]
  }

  /** `handleDeleteProject`: every project with the id goes, the rest stay in order. */
  function DeleteProject(ps: seq<Project>, id: nat): (r: seq<Project>)
    ensures C.IsSubsequence(r, ps)
    ensures forall i :: 0 <= i < |r| ==> r[i].id != id
    ensures forall i :: 0 <= i < |ps| && ps[i].id != id ==> ps[i] in r
    ensures |r| == |ps| - C.Count(ps, (p: Project) => p.id == id)
  {
    var keep := (p: Project) => p.id != id;
    C.FilterIsSubsequence(ps, keep);
    CountComplement(ps, id);
    C.FilterLength(ps, keep);
    C.Filter(ps, keep)
  }

  /** The projects kept and the projects with the id together make up the list. */
  lemma {:induction false} CountComplement(ps: seq<Project>, id: nat)
    ensures C.Count(ps, (p: Project) => p.id != id) + C.Count(ps, (p: Project) => p.id == id) == |ps|
    decreases |ps|
  {
    if ps != [] {
      CountComplement(ps[1..], id);
    }
  }

  /** Deleting an id nobody has changes nothing. */
  lemma DeleteAbsent(ps: seq<Project>, id: nat)
    requires forall i :: 0 <= i < |ps| ==> ps[i].id != id
    ensures DeleteProject(ps, id) == ps
  {
    C.FilterAll(ps, (p: Project) => p.id != id);
  }

  /** Deleting twice is deleting once. */
  lemma DeleteIdempotent(ps: seq<Project>, id: nat)
    ensures DeleteProject(DeleteProject(ps, id), id) == DeleteProject(ps, id)
  {
    C.FilterIdempotent(ps, (p: Project) => p.id != id);
  }

  /** The list shrinks exactly when some project has the id. */
  lemma DeleteShrinksIffPresent(ps: seq<Project>, id: nat)
    ensures |DeleteProject(ps, id)| < |ps| <==> exists i :: 0 <= i < |ps| && ps[i].id == id
  {
    C.FilterShrinks(ps, (p: Project) => p.id != id);
  }

  /** The Active tab. */
  function ActiveTab(ps: seq<Project>): (r: seq<Project>)
    ensures C.IsSubsequence(r, ps)
    ensures forall i :: 0 <= i < |r| ==> r[i].status == "Active"
    ensures forall i :: 0 <= i < |ps| && ps[i].status == "Active" ==> ps[i] in r
  {
    C.FilterIsSubsequence(ps, (p: Project) => p.status == "Active");
    C.Filter(ps, (p: Project) => p.status == "Active")
  }

  /** Deleting then listing the Active tab is listing the tab then deleting. */
  lemma DeleteCommutesWithActiveTab(ps: seq<Project>, id: nat)
    ensures ActiveTab(DeleteProject(ps, id)) == DeleteProject(ActiveTab(ps), id)
  {
    C.FilterCommutes(ps, (p: Project) => p.id != id, (p: Project) => p.status == "Active");
  }

  class View {
    var projects: seq<Project>

    constructor ()
      ensures projects == Seeded()
    {
      projects := Seeded();
    }

    method HandleDeleteProject(id: nat)
      modifies this
      ensures projects == DeleteProject(old(projects), id)
    {
      projects := DeleteProject(projects, id);
    }
  }
}

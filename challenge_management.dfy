/** The community's challenge management (challenge-management.jsx): seeded
    challenges, the creation of a challenge from the form's data with a generated id,
    and the Active, Upcoming and Completed tabs. */
module ChallengeManagement {
  import C = Common

  /** A challenge; the seeded ones carry no verification method. */
  datatype Challenge = Challenge(
    id: nat,
    title: string,
    description: string,
    category: string,
    startDate: C.Option<string>,
    endDate: C.Option<string>,
    participants: nat,
    reward: int,
    status: string,
    progress: nat,
    verified: bool,
    difficulty: string,
    verificationMethod: C.Option<string>)

  /** What the challenge form submits (its defaults: status "Draft", difficulty
      "Medium", verification by photo, no dates). */
  datatype ChallengeDraft = ChallengeDraft(
    title: string,
    description: string,
    category: string,
    startDate: C.Option<string>,
    endDate: C.Option<string>,
    reward: int,
    difficulty: string,
    verificationMethod: string,
    status: string)

  function Seed(id: nat, title: string, description: string, category: string, startDate: string,
                endDate: string, participants: nat, reward: int, status: string, progress: nat,
                verified: bool, difficulty: string): Challenge
  {
    Challenge(id, title, description, category, C.Some(startDate), C.Some(endDate), participants, reward,
              status, progress, verified, difficulty, C.None)
  }

  /** The seven challenges the component starts with, numbered 1 to 7. */
  function Seeded(): (r: seq<Challenge>)
    ensures |r| == 7
    ensures ConsecutiveIds(r)
  {
    [ Seed(1, "Zero Waste Week", "Challenge to produce no landfill waste for one week", "Waste",
           "2025-05-01", "2025-05-08", 124, 500, "Active", 65, true, "Medium"),
      Seed(2, "Bike to Work Month", "Commute by bicycle for a full month", "Transportation",
           "2025-04-01", "2025-04-30", 87, 750, "Active", 90, true, "Hard"),
      Seed(3, "Plastic-Free Challenge", "Avoid single-use plastics for 30 days", "Waste",
           "2025-05-15", "2025-06-15", 156, 600, "Pending", 0, false, "Medium"),
      Seed(4, "Local Food Only", "Eat only locally-sourced food for two weeks", "Food",
           "2025-06-01", "2025-06-15", 42, 450, "Draft", 0, false, "Medium"),
      Seed(5, "Energy Conservation", "Reduce home energy usage by 20% for one month", "Energy",
           "2025-05-01", "2025-05-31", 68, 550, "Active", 45, true, "Easy"),
      Seed(6, "Water Saving Challenge", "Reduce water consumption by 30% for two weeks", "Water",
           "2025-04-15", "2025-04-30", 93, 400, "Completed", 100, true, "Medium"),
      Seed(7, "Public Transport Only", "Use only public transportation for commuting for one month",
           "Transportation", "2025-03-01", "2025-03-31", 112, 700, "Completed", 100, true, "Medium") ]
  }

  /** The challenge at position `i` has id `i + 1`. */
  predicate ConsecutiveIds(cs: seq<Challenge>)
  {
    forall i :: 0 <= i < |cs| ==> cs[i].id == i + 1
  }

  predicate UniqueIds(cs: seq<Challenge>)
  {
    forall i, j :: 0 <= i < j < |cs| ==> cs[i].id != cs[j].id
  }

  lemma ConsecutiveIdsUnique(cs: seq<Challenge>)
    requires ConsecutiveIds(cs)
    ensures UniqueIds(cs)
  {
  }

  /** `handleCreateChallenge`: the form's data, with the id set to the list's length
      plus one and no participants, no progress and no verification yet, appended. */
  function Create(cs: seq<Challenge>, draft: ChallengeDraft): (r: seq<Challenge>)
    ensures |r| == |cs| + 1 && r[..|cs|] == cs
    ensures r[|cs|].id == |cs| + 1
    ensures r[|cs|].participants == 0 && r[|cs|].progress == 0 && !r[|cs|].verified
    ensures r[|cs|].title == draft.title && r[|cs|].description == draft.description
    ensures r[|cs|].category == draft.category && r[|cs|].reward == draft.reward
    ensures r[|cs|].startDate == draft.startDate && r[|cs|].endDate == draft.endDate
    ensures r[|cs|].status == draft.status && r[|cs|].difficulty == draft.difficulty
    ensures r[|cs|].verificationMethod == C.Some(draft.verificationMethod)
  {
    cs + [Challenge(|cs| + 1, draft.title, draft.description, draft.category, draft.startDate, draft.endDate,
                    0, draft.reward, draft.status, 0, false, draft.difficulty, C.Some(draft.verificationMethod))]
  }

  /** Creation keeps the ids consecutive, hence distinct. */
  lemma CreateKeepsConsecutiveIds(cs: seq<Challenge>, draft: ChallengeDraft)
    requires ConsecutiveIds(cs)
    ensures ConsecutiveIds(Create(cs, draft)) && UniqueIds(Create(cs, draft))
  {
    ConsecutiveIdsUnique(Create(cs, draft));
  }

  /** The three tabs. */
  datatype TabKind = ActiveTab | UpcomingTab | CompletedTab

  predicate InTab(c: Challenge, tab: TabKind)
  {
    match tab
    case ActiveTab => c.status == "Active"
    case UpcomingTab => c.status == "Draft" || c.status == "Pending"
    case CompletedTab => c.status == "Completed"
  }

  function Tab(cs: seq<Challenge>, tab: TabKind): (r: seq<Challenge>)
    ensures C.IsSubsequence(r, cs)
    ensures forall i :: 0 <= i < |r| ==> InTab(r[i], tab)
    ensures forall i :: 0 <= i < |cs| && InTab(cs[i], tab) ==> cs[i] in r
  {
    C.FilterIsSubsequence(cs, (c: Challenge) => InTab(c, tab));
    C.Filter(cs, (c: Challenge) => InTab(c, tab))
  }

  /** A challenge appears in at most one tab. */
  lemma TabsDisjoint(c: Challenge, t1: TabKind, t2: TabKind)
    requires InTab(c, t1) && InTab(c, t2)
    ensures t1 == t2
  {
  }

  /** The three tabs together list at most every challenge once. */
  lemma {:induction false} TabsCoverAtMostAll(cs: seq<Challenge>)
    ensures |Tab(cs, ActiveTab)| + |Tab(cs, UpcomingTab)| + |Tab(cs, CompletedTab)| <= |cs|
    decreases |cs|
  {
    if cs != [] {
      TabsCoverAtMostAll(cs[1..]);
    }
  }

  /** A new challenge shows in the tab its status selects, after the challenges already there. */
  lemma CreatedChallengeTab(cs: seq<Challenge>, draft: ChallengeDraft, tab: TabKind)
    ensures Tab(Create(cs, draft), tab)
            == Tab(cs, tab) + (if InTab(Create(cs, draft)[|cs|], tab) then [Create(cs, draft)[|cs|]] else [])
  {
    var r := Create(cs, draft);
    assert r == cs + [r[|cs|]];
    C.FilterAppend(cs, [r[|cs|]], (c: Challenge) => InTab(c, tab));
  }

  /** The component's state. */
  class Board {
    var challenges: seq<Challenge>
    var isCreateDialogOpen: bool

    ghost predicate Valid()
      reads this
    {
      ConsecutiveIds(challenges)
    }

    constructor ()
      ensures challenges == Seeded() && !isCreateDialogOpen && Valid()
    {
      challenges := Seeded();
      isCreateDialogOpen := false;
    }

    /** The "Create Challenge" button. */
    method OpenCreateDialog()
      modifies this
      ensures isCreateDialogOpen && challenges == old(challenges)
    {
      isCreateDialogOpen := true;
    }

    /** `handleCreateChallenge`: append the new challenge and close the dialog. */
    method HandleCreateChallenge(draft: ChallengeDraft)
      modifies this
      ensures challenges == Create(old(challenges), draft)
      ensures !isCreateDialogOpen
      ensures old(Valid()) ==> Valid() && UniqueIds(challenges)
    {
      if Valid() {
        CreateKeepsConsecutiveIds(challenges, draft);
      }
      challenges := Create(challenges, draft);
      isCreateDialogOpen := false;
    }
  }
}

/** The NFT collections page (nft-list-page.jsx): the collection filter, the
    participant gate and the rarity colours. */
module NftList {
  import C = Common
  import Text

  datatype Collection = Collection(
    id: nat,
    name: string,
    description: string,
    itemCount: nat,
    category: string,
    featured: bool)

  /** The eight collections the page lists. */
  const Collections: seq<Collection> := [
    Collection(1, "Eco Guardians", "Celebrate your commitment to environmental protection with these guardian-themed NFTs.", 12, "Achievement", true),
    Collection(2, "Ocean Defenders", "A collection honoring those who have contributed to ocean conservation efforts.", 8, "Conservation", true),
    Collection(3, "Forest Spirits", "Mystical beings representing your dedication to forest preservation.", 10, "Conservation", false),
    Collection(4, "Climate Heroes", "Honoring those who have made significant contributions to climate action.", 6, "Achievement", true),
    Collection(5, "Sustainable Cities", "Futuristic visions of sustainable urban environments.", 15, "Vision", false),
    Collection(6, "Renewable Energy", "Celebrating innovations and achievements in renewable energy.", 9, "Innovation", false),
    Collection(7, "Biodiversity Champions", "Recognizing efforts to protect and enhance biodiversity.", 12, "Conservation", false),
    Collection(8, "Zero Waste Heroes", "Honoring those committed to reducing waste and promoting circular economy.", 7, "Achievement", true)
  ]

  /** The search: the lower-cased query inside the lower-cased name or description. */
  predicate MatchesSearch(c: Collection, query: string)
  {
    Text.Includes(Text.Lower(c.name), Text.Lower(query))
    || Text.Includes(Text.Lower(c.description), Text.Lower(query))
  }

  /** The category filter: "all", or case-sensitive equality. */
  predicate MatchesCategory(c: Collection, filter: string)
  {
    filter == "all" || c.category == filter
  }

  /** `filteredCollections`. */
  function FilteredCollections(cs: seq<Collection>, query: string, filter: string): (r: seq<Collection>)
    ensures C.IsSubsequence(r, cs)
    ensures forall i :: 0 <= i < |r| ==> MatchesSearch(r[i], query) && MatchesCategory(r[i], filter)
    ensures forall i :: 0 <= i < |cs| && MatchesSearch(cs[i], query) && MatchesCategory(cs[i], filter) ==> cs[i] in r
  {
    var keep := (c: Collection) => MatchesSearch(c, query) && MatchesCategory(c, filter);
    C.FilterIsSubsequence(cs, keep);
    C.Filter(cs, keep)
  }

  /** An empty query matches every collection, so the initial page lists them all. */
  lemma EmptyQueryMatchesAll(cs: seq<Collection>)
    ensures FilteredCollections(cs, "", "all") == cs
  {
    forall i | 0 <= i < |cs|
      ensures MatchesSearch(cs[i], "")
    {
      assert Text.Lower("") == "";
      Text.IncludesEmpty(Text.Lower(cs[i].name));
    }
    C.FilterAll(cs, (c: Collection) => MatchesSearch(c, "") && MatchesCategory(c, "all"));
  }

  /** The role the page is hard-wired to. */
  const UserRole: string := "Participant"

  /** `canViewNFTs`: strict equality with the lower-case "participant". */
  predicate CanViewNFTs(role: string)
  {
    role == "participant"
  }

  /** The hard-wired role differs in case, so the page never counts its user as a participant. */
  lemma HardWiredRoleCannotView()
    ensures !CanViewNFTs(UserRole)
  {
    assert UserRole[0] != "participant"[0];
  }

  datatype Screen = AccessRequired | CollectionsScreen

  /** The page as written: it returns the access-required screen when `canViewNFTs`
      holds and the collections otherwise. */
  function ScreenAsWritten(role: string): (r: Screen)
    ensures r == AccessRequired <==> CanViewNFTs(role)
  {
    if CanViewNFTs(role) then AccessRequired else CollectionsScreen
  }

  /** The gate is inverted: a participant is locked out and any other role gets in;
      with the hard-wired role the collections are shown. */
  lemma GateInverted()
    ensures ScreenAsWritten("participant") == AccessRequired
    ensures ScreenAsWritten("community") == CollectionsScreen
    ensures ScreenAsWritten(UserRole) == CollectionsScreen
  {
    HardWiredRoleCannotView();
    assert "community"[0] != "participant"[0];
  }

  /** The gate as the page's comment and message describe it: the collections for a
      participant, whichever way the role is capitalised, and the access-required
      screen for everyone else. */
  function IntendedScreen(role: string): (r: Screen)
    ensures r == CollectionsScreen <==> Text.Lower(role) == "participant"
  {
    if Text.Lower(role) == "participant" then CollectionsScreen else AccessRequired
  }

  /** The intended gate admits the page's own participant and a lower-case one, and
      keeps out a community, where the written gate does the opposite for the latter two. */
  lemma GateCorrected()
    ensures IntendedScreen(UserRole) == CollectionsScreen
    ensures IntendedScreen("participant") == CollectionsScreen != ScreenAsWritten("participant")
    ensures IntendedScreen("community") == AccessRequired != ScreenAsWritten("community")
  {
    assert Text.Lower(UserRole) == "participant" by {
      forall i | 0 <= i < |UserRole|
        ensures Text.Lower(UserRole)[i] == "participant"[i]
      {
      }
    }
    assert Text.Lower("participant") == "participant" by {
      forall i | 0 <= i < |"participant"|
        ensures Text.Lower("participant")[i] == "participant"[i]
      {
      }
    }
    assert Text.Lower("community")[0] != "participant"[0];
    GateInverted();
  }

  /** The screen the page renders for its own role, under the intended gate. */
  function PageScreen(): (r: Screen)
    ensures r == CollectionsScreen
  {
    GateCorrected();
    IntendedScreen(UserRole)
  }

  /** `getRarityColor`. */
  function GetRarityColor(rarity: string): (r: string)
    ensures r in {"bg-slate-500", "bg-green-500", "bg-blue-500", "bg-purple-500", "bg-amber-500"}
    ensures r == "bg-slate-500" <==> rarity !in {"Uncommon", "Rare", "Epic", "Legendary"}
  {
    match rarity
    case "Common" => "bg-slate-500"
    case "Uncommon" => "bg-green-500"
    case "Rare" => "bg-blue-500"
    case "Epic" => "bg-purple-500"
    case "Legendary" => "bg-amber-500"
    case _ => "bg-slate-500"
  }

  /** The rarities other than Common have colours of their own. */
  lemma RarityColorsDistinct(a: string, b: string)
    requires a in {"Uncommon", "Rare", "Epic", "Legendary"} && b in {"Uncommon", "Rare", "Epic", "Legendary"}
    requires GetRarityColor(a) == GetRarityColor(b)
    ensures a == b
  {
  }

  class Page {
    var searchQuery: string
    var categoryFilter: string

    constructor ()
      ensures searchQuery == "" && categoryFilter == "all"
    {
      searchQuery := "";
      categoryFilter := "all";
    }

    /** The collections listed under the current search and category. */
    function Filtered(): seq<Collection>
      reads this
    {
      FilteredCollections(Collections, searchQuery, categoryFilter)
    }

    /** The search box and the category select. */
    method SetFilters(query: string, category: string)
      modifies this
      ensures searchQuery == query && categoryFilter == category
      ensures Filtered() == FilteredCollections(Collections, query, category)
    {
      searchQuery, categoryFilter := query, category;
    }
  }
}

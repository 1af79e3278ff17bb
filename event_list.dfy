/** The public events page (event-list-page.jsx): a fixed list of events narrowed by
    a category filter and a search box, and the action that resets both. */
module EventList {
  import C = Common
  import Text

  datatype Event = Event(
    id: nat,
    title: string,
    description: string,
    date: string,
    location: string,
    category: string,
    participants: nat)

  /** The six events the page lists. */
  const Events: seq<Event> := [
    Event(1, "Community Tree Planting", "Join us for a day of tree planting in Central Park. All equipment provided.",
          "2023-12-15", "Central Park, Sector 7", "tree-planting", 24),
    Event(2, "Beach Cleanup Initiative", "Help clean our local beaches and protect marine life from plastic pollution.",
          "2023-12-18", "Sunset Beach, West Coast", "waste-cleanup", 42),
    Event(3, "River Conservation Project", "Help monitor water quality and remove invasive species from our local river.",
          "2023-12-20", "Riverside Park, East District", "water-conservation", 18),
    Event(4, "Renewable Energy Workshop", "Learn how to build small-scale solar panels and wind turbines for home use.",
          "2023-12-22", "Community Center, Downtown", "renewable-energy", 35),
    Event(5, "Urban Garden Development", "Transform empty lots into productive community gardens with native plants.",
          "2023-12-25", "Urban District, Block 12", "tree-planting", 29),
    Event(6, "Highway Cleanup Campaign", "Join our effort to clean up trash along major highways and reduce pollution.",
          "2023-12-28", "Highway 101, North Entrance", "waste-cleanup", 56)
  ]

  /** The category filter: "all", or exact equality with the event's category. */
  predicate InCategory(e: Event, filter: string)
  {
    filter == "all" || e.category == filter
  }

  /** The search: an empty query, or the lower-cased query inside the lower-cased
      title or description. */
  predicate MatchesQuery(e: Event, query: string)
  {
    query == ""
    || Text.Includes(Text.Lower(e.title), Text.Lower(query))
    || Text.Includes(Text.Lower(e.description), Text.Lower(query))
  }

  predicate Shown(e: Event, filter: string, query: string)
  {
    InCategory(e, filter) && MatchesQuery(e, query)
  }

  /** The events both filters keep, in list order. */
  function FilterEvents(events: seq<Event>, filter: string, query: string): (r: seq<Event>)
    ensures C.IsSubsequence(r, events)
    ensures forall i :: 0 <= i < |r| ==> Shown(r[i], filter, query)
    ensures forall i :: 0 <= i < |events| && Shown(events[i], filter, query) ==> events[i] in r
  {
    C.FilterIsSubsequence(events, (e: Event) => Shown(e, filter, query));
    C.Filter(events, (e: Event) => Shown(e, filter, query))
  }

  /** Filtering by category, then by the query, is filtering by both. */
  lemma CategoryThenQuery(events: seq<Event>, filter: string, query: string)
    ensures C.Filter(C.Filter(events, (e: Event) => InCategory(e, filter)), (e: Event) => MatchesQuery(e, query))
            == FilterEvents(events, filter, query)
  {
    C.FilterTwiceAs(events, (e: Event) => InCategory(e, filter), (e: Event) => MatchesQuery(e, query),
                    (e: Event) => Shown(e, filter, query));
  }

  /** The two filters can be applied in either order. */
  lemma FilterOrderIrrelevant(events: seq<Event>, filter: string, query: string)
    ensures C.Filter(C.Filter(events, (e: Event) => MatchesQuery(e, query)), (e: Event) => InCategory(e, filter))
            == FilterEvents(events, filter, query)
  {
    CategoryThenQuery(events, filter, query);
    C.FilterCommutes(events, (e: Event) => InCategory(e, filter), (e: Event) => MatchesQuery(e, query));
  }

  /** With the filter at "all" and an empty query every event is shown. */
  lemma ResetShowsAll(events: seq<Event>)
    ensures FilterEvents(events, "all", "") == events
  {
    C.FilterAll(events, (e: Event) => Shown(e, "all", ""));
  }

  /** The body of the filtering effect: start from all events, narrow by category
      unless the filter is "all", then by the query unless it is empty. */
  method NarrowEvents(events: seq<Event>, filter: string, search: string) returns (result: seq<Event>)
    ensures result == FilterEvents(events, filter, search)
  {
    result := events;
    if filter != "all" {
      result := C.Filter(result, (e: Event) => e.category == filter);
      CategoryStep(events, filter);
    } else {
      C.FilterAll(events, (e: Event) => InCategory(e, filter));
    }
    if search != "" {
      var query := Text.Lower(search);
      QueryStep(result, search);
      result := C.Filter(result, (e: Event) => Text.Includes(Text.Lower(e.title), query)
                                               || Text.Includes(Text.Lower(e.description), query));
    } else {
      C.FilterAll(result, (e: Event) => MatchesQuery(e, search));
    }
    CategoryThenQuery(events, filter, search);
  }

  class Page {
    var filteredEvents: seq<Event>
    var activeFilter: string
    var searchQuery: string

    constructor ()
      ensures filteredEvents == Events && activeFilter == "all" && searchQuery == ""
    {
      filteredEvents := Events;
      activeFilter := "all";
      searchQuery := "";
    }

    /** The filtering effect: narrow by category unless "all", then by the query
        unless it is empty. */
    method ApplyFilters()
      modifies this
      ensures filteredEvents == FilterEvents(Events, activeFilter, searchQuery)
      ensures activeFilter == old(activeFilter) && searchQuery == old(searchQuery)
    {
      var result := NarrowEvents(Events, activeFilter, searchQuery);
      filteredEvents := result;
    }

    /** Selecting a category, and the effect it triggers. */
    method SetActiveFilter(filter: string)
      modifies this
      ensures activeFilter == filter && searchQuery == old(searchQuery)
      ensures filteredEvents == FilterEvents(Events, filter, old(searchQuery))
    {
      activeFilter := filter;
      ApplyFilters();
    }

    /** Typing in the search box, and the effect it triggers. */
    method SetSearchQuery(query: string)
      modifies this
      ensures searchQuery == query && activeFilter == old(activeFilter)
      ensures filteredEvents == FilterEvents(Events, old(activeFilter), query)
    {
      searchQuery := query;
      ApplyFilters();
    }

    /** "Reset Filters": back to "all" and an empty query, showing every event. */
    method ResetFilters()
      modifies this
      ensures activeFilter == "all" && searchQuery == ""
      ensures filteredEvents == Events
    {
      activeFilter := "all";
      searchQuery := "";
      ApplyFilters();
      ResetShowsAll(Events);
    }
  }

  /** The effect's category step is the category filter. */
  lemma CategoryStep(events: seq<Event>, filter: string)
    requires filter != "all"
    ensures C.Filter(events, (e: Event) => e.category == filter) == C.Filter(events, (e: Event) => InCategory(e, filter))
  {
    C.FilterSamePredicate(events, (e: Event) => e.category == filter, (e: Event) => InCategory(e, filter));
  }

  /** The effect's search step, run with a non-empty query, is the search filter. */
  lemma QueryStep(events: seq<Event>, query: string)
    requires query != ""
    ensures C.Filter(events, (e: Event) => Text.Includes(Text.Lower(e.title), Text.Lower(query))
                                           || Text.Includes(Text.Lower(e.description), Text.Lower(query)))
            == C.Filter(events, (e: Event) => MatchesQuery(e, query))
  {
    C.FilterSamePredicate(events, (e: Event) => Text.Includes(Text.Lower(e.title), Text.Lower(query))
                                                || Text.Includes(Text.Lower(e.description), Text.Lower(query)),
                          (e: Event) => MatchesQuery(e, query));
  }
}

/**
 * The airport picker's computed lists: autocomplete suggestions, the
 * filtered directory, and its split into domestic and international
 * sections. The directory (`commonAirports`) is a parameter.
 */
module AirportSelection {
  import opened Text
  import opened Seqs

  datatype Airport = Airport(code: string, city: string)

  /** The search text matches an airport whose code or city contains it, ignoring case. */
  predicate Matches(a: Airport, query: string)
  {
    CaseInsensitiveContains(a.code, query) || CaseInsensitiveContains(a.city, query)
  }

  /** An airport is listed as international when its code contains "NRT" or "ICN". */
  predicate IsInternational(a: Airport)
  {
    Contains(a.code, "NRT") || Contains(a.code, "ICN")
  }

  /** `searchSuggestions`: nothing for an empty query, otherwise the matching airports in directory order. */
  function SearchSuggestions(directory: seq<Airport>, query: string): (r: seq<Airport>)
    ensures query == [] ==> r == []
    ensures forall a :: a in r <==> query != [] && a in directory && Matches(a, query)
    ensures IsSubsequence(r, directory)
  {
    if query == [] then [] else Filter(directory, (a: Airport) => Matches(a, query))
  }

  /** `filteredAirports`: the whole directory for an empty query, otherwise the matching airports in directory order. */
  function FilteredAirports(directory: seq<Airport>, query: string): (r: seq<Airport>)
    ensures query == [] ==> r == directory
    ensures query != [] ==> forall a :: a in r <==> a in directory && Matches(a, query)
    ensures IsSubsequence(r, directory)
  {
    if query == [] then IsSubsequenceReflexive(directory); directory
    else Filter(directory, (a: Airport) => Matches(a, query))
  }

  /** `domesticAirports`. */
  function DomesticAirports(directory: seq<Airport>, query: string): (r: seq<Airport>)
  {
    Filter(FilteredAirports(directory, query), (a: Airport) => !Contains(a.code, "NRT") && !Contains(a.code, "ICN"))
  }

  /** `internationalAirports`. */
  function InternationalAirports(directory: seq<Airport>, query: string): (r: seq<Airport>)
  {
    Filter(FilteredAirports(directory, query), (a: Airport) => Contains(a.code, "NRT") || Contains(a.code, "ICN"))
  }

  /** For a non-empty query the suggestions are exactly the filtered list. */
  lemma SuggestionsAgreeWithFilter(directory: seq<Airport>, query: string)
    requires query != []
    ensures SearchSuggestions(directory, query) == FilteredAirports(directory, query)
  {
  }

  /**
   * The two sections split the filtered list: every filtered airport is in
   * exactly one of them, each keeps directory order, and their sizes add up.
   */
  lemma SectionsPartitionFiltered(directory: seq<Airport>, query: string)
    ensures multiset(DomesticAirports(directory, query)) + multiset(InternationalAirports(directory, query))
            == multiset(FilteredAirports(directory, query))
    ensures |DomesticAirports(directory, query)| + |InternationalAirports(directory, query)|
            == |FilteredAirports(directory, query)|
    ensures forall a :: !(a in DomesticAirports(directory, query) && a in InternationalAirports(directory, query))
    ensures IsSubsequence(DomesticAirports(directory, query), FilteredAirports(directory, query))
    ensures IsSubsequence(InternationalAirports(directory, query), FilteredAirports(directory, query))
  {
    var s := FilteredAirports(directory, query);
    FilterPartition(s, (a: Airport) => Contains(a.code, "NRT") || Contains(a.code, "ICN"),
                       (a: Airport) => !Contains(a.code, "NRT") && !Contains(a.code, "ICN"));
  }

  /** A filtered airport is in the international section exactly when it is international, and in the domestic one otherwise. */
  lemma SectionMembership(directory: seq<Airport>, query: string, a: Airport)
    requires a in FilteredAirports(directory, query)
    ensures a in InternationalAirports(directory, query) <==> IsInternational(a)
    ensures a in DomesticAirports(directory, query) <==> !IsInternational(a)
  {
  }

  /** Case does not matter: a lower-case query finds an upper-case code. */
  lemma CaseInsensitiveExample()
    ensures Matches(Airport("PEK", "北京首都"), "pek")
  {
    assert Lower("PEK") == "pek";
    assert IsPrefix(Lower("pek"), Lower("PEK"));
  }
}

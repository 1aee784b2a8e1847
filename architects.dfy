/** The architect directory of app/architectes/page.tsx: the search and
    select filters, the sort comparators applied with a stable sort, the
    distance fallbacks, the specialty list, the by-city grouping of the map
    view and the reset button. The haversine formula and the locale
    collation of names are parameters. */
module Architects {
  import opened PortalTypes
  import opened Listing
  import opened Options

  // ---------------------------------------------------------------------------
  // Distance fallbacks

  datatype Coord = Coord(lat: real, lng: real)

  /** `cityCoordinates`: the five cities of the region that have a position. */
  function CityCoordinates(): (m: map<string, Coord>)
    ensures m.Keys == {"Oujda", "Nador", "Berkane", "Taourirt", "Jerada"}
  {
    map[
      "Oujda" := Coord(34.6814, -1.9086),
      "Nador" := Coord(35.1681, -2.9335),
      "Berkane" := Coord(34.9218, -2.32),
      "Taourirt" := Coord(34.4078, -2.8953),
      "Jerada" := Coord(34.3108, -2.1625)]
  }

  /** Great-circle distance in kilometres between two positions. */
  type Haversine = (Coord, Coord) -> real

  /** `getArchitectDistance` of the grid and list views: `null` without a
      user position or when the architect's city has no coordinates. */
  function DistanceOrNull(user: Option<Coord>, a: Architect, haversine: Haversine): (d: Option<real>)
    ensures d.None? <==> user.None? || a.city !in CityCoordinates()
    ensures d.Some? ==> d.value == haversine(user.value, CityCoordinates()[a.city])
  {
    if user.None? then None
    else if a.city !in CityCoordinates() then None
    else Some(haversine(user.value, CityCoordinates()[a.city]))
  }

  /** `getArchitectDistance` of the page itself, used by the distance sort:
      the same lookup with 0 in place of `null`. */
  function DistanceOrZero(user: Option<Coord>, a: Architect, haversine: Haversine): real
  {
    if user.None? then 0.0
    else
      var cityCoords := if a.city in CityCoordinates() then Some(CityCoordinates()[a.city]) else None;
      if cityCoords.None? then 0.0
      else haversine(user.value, cityCoords.value)
  }

  /** The two variants agree wherever a distance exists; where none exists
      the page's variant gives 0 and the views' variant gives `null`. */
  lemma DistanceVariantsAgree(user: Option<Coord>, a: Architect, haversine: Haversine)
    ensures DistanceOrZero(user, a, haversine) == DistanceOrNull(user, a, haversine).GetOr(0.0)
    ensures DistanceOrNull(user, a, haversine).None? ==> DistanceOrZero(user, a, haversine) == 0.0
  {
  }

  // ---------------------------------------------------------------------------
  // Filters

  /** The directory's four filter inputs. */
  datatype DirectoryFilters = DirectoryFilters(searchTerm: string, cityFilter: string, specialtyFilter: string, sortBy: string)

  /** The inputs the page starts with and the reset button restores. */
  function DefaultFilters(): DirectoryFilters {
    DirectoryFilters("", "all", "all", "name")
  }

  /** The fields the text search looks at: first name, last name and every
      specialty. */
  function SearchedFields(a: Architect): seq<string> {
    [a.firstName, a.lastName] + a.specialties
  }

  /** The predicate of `filteredAndSortedArchitects`: case-insensitive search,
      exact city, and a case-sensitive substring of some specialty. */
  predicate MatchesArchitect(fold: Fold, f: DirectoryFilters, a: Architect) {
    && SearchMatches(fold, SearchedFields(a), f.searchTerm)
    && Passes(f.cityFilter, a.city)
    && (f.specialtyFilter == "all" || SomeIncludes(a.specialties, f.specialtyFilter))
  }

  /** The text search matches exactly the architects whose first name, last
      name or some specialty contains the term, all case-folded; the city is
      not searched. */
  lemma SearchFieldsIff(fold: Fold, term: string, a: Architect)
    ensures SearchMatches(fold, SearchedFields(a), term) <==>
              Includes(fold(a.firstName), fold(term))
              || Includes(fold(a.lastName), fold(term))
              || exists k :: 0 <= k < |a.specialties| && Includes(fold(a.specialties[k]), fold(term))
  {
    var fields := SearchedFields(a);
    SearchMatchesIff(fold, fields, term);
    assert fields[0] == a.firstName && fields[1] == a.lastName;
    assert forall k :: 0 <= k < |a.specialties| ==> fields[k + 2] == a.specialties[k];
    if SearchMatches(fold, fields, term) {
      var j :| 0 <= j < |fields| && Includes(fold(fields[j]), fold(term));
      if j >= 2 {
        assert Includes(fold(a.specialties[j - 2]), fold(term));
      }
    }
    if exists k :: 0 <= k < |a.specialties| && Includes(fold(a.specialties[k]), fold(term)) {
      var k :| 0 <= k < |a.specialties| && Includes(fold(a.specialties[k]), fold(term));
      assert Includes(fold(fields[k + 2]), fold(term));
    }
  }

  /** The specialty select keeps exactly the architects, among those the
      search and the city keep, one of whose specialties contains the chosen
      text, with no case folding. */
  lemma SpecialtyFilterIff(fold: Fold, f: DirectoryFilters, a: Architect)
    requires f.specialtyFilter != "all"
    ensures MatchesArchitect(fold, f, a) <==>
              && SearchMatches(fold, SearchedFields(a), f.searchTerm)
              && Passes(f.cityFilter, a.city)
              && exists k :: 0 <= k < |a.specialties| && Includes(a.specialties[k], f.specialtyFilter)
  {
    SomeIncludesIff(a.specialties, f.specialtyFilter);
  }

  function FilteredArchitects(fold: Fold, f: DirectoryFilters, architects: seq<Architect>): (r: seq<Architect>)
    ensures IsSubsequence(r, architects)
    ensures forall k :: 0 <= k < |r| ==> MatchesArchitect(fold, f, r[k])
    ensures forall a :: a in architects && MatchesArchitect(fold, f, a) ==> a in r
    ensures f.cityFilter != "all" ==> forall k :: 0 <= k < |r| ==> r[k].city == f.cityFilter
    ensures forall x :: multiset(r)[x] == if MatchesArchitect(fold, f, x) then multiset(architects)[x] else 0
  {
    var keep := a => MatchesArchitect(fold, f, a);
    FilterCounts(keep, architects);
    Filter(keep, architects)
  }

  /** An architect is listed exactly when the first name, the last name or a
      specialty contains the search term (case-folded), the city equals the
      city filter, and some specialty contains the specialty filter (without
      folding), each select passing everything on "all". */
  lemma FilteredArchitectsIff(fold: Fold, f: DirectoryFilters, architects: seq<Architect>, a: Architect)
    ensures a in FilteredArchitects(fold, f, architects) <==>
              && a in architects
              && (|| Includes(fold(a.firstName), fold(f.searchTerm))
                  || Includes(fold(a.lastName), fold(f.searchTerm))
                  || exists k :: 0 <= k < |a.specialties| && Includes(fold(a.specialties[k]), fold(f.searchTerm)))
              && (f.cityFilter == "all" || a.city == f.cityFilter)
              && (f.specialtyFilter == "all"
                  || exists k :: 0 <= k < |a.specialties| && Includes(a.specialties[k], f.specialtyFilter))
  {
    SearchFieldsIff(fold, f.searchTerm, a);
    SomeIncludesIff(a.specialties, f.specialtyFilter);
  }

  /** With an empty search and both selects at "all", every architect passes. */
  lemma DefaultFiltersKeepAll(fold: Fold, sortBy: string, architects: seq<Architect>)
    requires FoldsEmpty(fold)
    ensures FilteredArchitects(fold, DirectoryFilters("", "all", "all", sortBy), architects) == architects
  {
    var f := DirectoryFilters("", "all", "all", sortBy);
    forall k | 0 <= k < |architects|
      ensures MatchesArchitect(fold, f, architects[k])
    {
      EmptySearchMatches(fold, SearchedFields(architects[k]));
    }
    FilterKeepsAll(a => MatchesArchitect(fold, f, a), architects);
  }

  // ---------------------------------------------------------------------------
  // Sorting

  /** A comparator as `Array.sort` takes it: negative puts the first
      argument first, positive the second, zero keeps their order. */
  type Comparator = (Architect, Architect) -> real

  /** `localeCompare` on strings, left abstract. */
  type Collation = (string, string) -> int

  function FullName(a: Architect): string {
    a.firstName + " " + a.lastName
  }

  /** The comparator chosen by `sortBy`; an unknown key compares everything
      as equal. */
  function Compare(sortBy: string, collate: Collation, user: Option<Coord>, haversine: Haversine): Comparator {
    if sortBy == "name" then
      (a: Architect, b: Architect) => collate(FullName(a), FullName(b)) as real
    else if sortBy == "city" then
      (a: Architect, b: Architect) => collate(a.city, b.city) as real
    else if sortBy == "projects" then
      (a: Architect, b: Architect) => (b.projects - a.projects) as real
    else if sortBy == "distance" then
      (a: Architect, b: Architect) => DistanceOrZero(user, a, haversine) - DistanceOrZero(user, b, haversine)
    else
      (a: Architect, b: Architect) => 0.0
  }

  /** What each key's comparator decides: by "projects" the architect with
      more projects comes first and equal counts tie; by "distance" the
      nearer one; by "name" and "city" whatever the collation says; and any
      other key ties everything. */
  lemma CompareSpec(collate: Collation, user: Option<Coord>, haversine: Haversine, a: Architect, b: Architect)
    ensures Compare("projects", collate, user, haversine)(a, b) < 0.0 <==> a.projects > b.projects
    ensures Compare("projects", collate, user, haversine)(a, b) == 0.0 <==> a.projects == b.projects
    ensures Compare("projects", collate, user, haversine)(a, b) == -Compare("projects", collate, user, haversine)(b, a)
    ensures Compare("distance", collate, user, haversine)(a, b) < 0.0 <==>
              DistanceOrZero(user, a, haversine) < DistanceOrZero(user, b, haversine)
    ensures Compare("name", collate, user, haversine)(a, b) < 0.0 <==> collate(FullName(a), FullName(b)) < 0
    ensures Compare("city", collate, user, haversine)(a, b) < 0.0 <==> collate(a.city, b.city) < 0
    ensures forall key :: key !in {"name", "city", "projects", "distance"} ==>
              Compare(key, collate, user, haversine)(a, b) == 0.0
  {
  }

  /** Inserts `x`, which came after every element of `s` in the input,
      behind every element that does not compare greater than it. */
  function Insert(cmp: Comparator, s: seq<Architect>, x: Architect): (r: seq<Architect>)
    ensures |r| == |s| + 1
    ensures multiset(r) == multiset(s) + multiset{x}
  {
    if |s| == 0 then [x]
    else
      var init, y := s[..|s| - 1], s[|s| - 1];
      assert s == init + [y];
      if cmp(y, x) <= 0.0 then s + [x] else Insert(cmp, init, x) + [y]
  }

  /** `Array.sort` with `cmp`, which is stable: an insertion sort that moves
      an element only past elements that compare greater than it. */
  function StableSort(cmp: Comparator, xs: seq<Architect>): (r: seq<Architect>)
    ensures |r| == |xs|
    ensures multiset(r) == multiset(xs)
  {
    if |xs| == 0 then []
    else
      assert xs == xs[..|xs| - 1] + [xs[|xs| - 1]];
      Insert(cmp, StableSort(cmp, xs[..|xs| - 1]), xs[|xs| - 1])
  }

  /** Ordered by project count, largest first. */
  predicate ByProjectsDescending(s: seq<Architect>) {
    forall i, j :: 0 <= i < j < |s| ==> s[i].projects >= s[j].projects
  }

  lemma {:induction false} InsertByProjects(cmp: Comparator, s: seq<Architect>, x: Architect)
    requires forall a, b :: cmp(a, b) == (b.projects - a.projects) as real
    requires ByProjectsDescending(s)
    ensures ByProjectsDescending(Insert(cmp, s, x))
  {
    if |s| > 0 {
      var init, y := s[..|s| - 1], s[|s| - 1];
      if cmp(y, x) > 0.0 {
        InsertByProjects(cmp, init, x);
        var r0 := Insert(cmp, init, x);
        forall k | 0 <= k < |r0|
          ensures r0[k].projects >= y.projects
        {
          assert r0[k] in multiset(r0);
          assert r0[k] in multiset(init) || r0[k] == x;
        }
      }
    }
  }

  lemma {:induction false} SortByProjects(cmp: Comparator, xs: seq<Architect>)
    requires forall a, b :: cmp(a, b) == (b.projects - a.projects) as real
    ensures ByProjectsDescending(StableSort(cmp, xs))
  {
    if |xs| > 0 {
      SortByProjects(cmp, xs[..|xs| - 1]);
      InsertByProjects(cmp, StableSort(cmp, xs[..|xs| - 1]), xs[|xs| - 1]);
    }
  }

  /** A comparator that finds everything equal leaves the order as it was. */
  lemma {:induction false} SortWithoutOrderIsIdentity(cmp: Comparator, xs: seq<Architect>)
    requires forall a, b :: cmp(a, b) == 0.0
    ensures StableSort(cmp, xs) == xs
  {
    if |xs| > 0 {
      SortWithoutOrderIsIdentity(cmp, xs[..|xs| - 1]);
      assert xs == xs[..|xs| - 1] + [xs[|xs| - 1]];
    }
  }

  /** `filteredAndSortedArchitects`. */
  function FilteredAndSorted(fold: Fold, f: DirectoryFilters, collate: Collation, user: Option<Coord>,
                             haversine: Haversine, architects: seq<Architect>): seq<Architect>
  {
    StableSort(Compare(f.sortBy, collate, user, haversine), FilteredArchitects(fold, f, architects))
  }

  /** The directory shows a permutation of the architects that pass the
      filters; sorted by projects it is in non-increasing project count, and
      with an unknown sort key it keeps the filtered order. */
  lemma FilteredAndSortedSpec(fold: Fold, f: DirectoryFilters, collate: Collation, user: Option<Coord>,
                              haversine: Haversine, architects: seq<Architect>)
    ensures var filtered := FilteredArchitects(fold, f, architects);
            var r := FilteredAndSorted(fold, f, collate, user, haversine, architects);
            && multiset(r) == multiset(filtered)
            && (f.sortBy == "projects" ==> ByProjectsDescending(r))
            && (f.sortBy !in {"name", "city", "projects", "distance"} ==> r == filtered)
  {
    var cmp := Compare(f.sortBy, collate, user, haversine);
    var filtered := FilteredArchitects(fold, f, architects);
    if f.sortBy == "projects" {
      SortByProjects(cmp, filtered);
    } else if f.sortBy !in {"name", "city", "projects", "distance"} {
      SortWithoutOrderIsIdentity(cmp, filtered);
    }
  }

  // ---------------------------------------------------------------------------
  // Specialties

  /** `architects.flatMap(a => a.specialties)`. */
  function SpecialtiesOf(architects: seq<Architect>): (r: seq<string>)
    ensures forall s :: s in r <==> exists k :: 0 <= k < |architects| && s in architects[k].specialties
  {
    if |architects| == 0 then []
    else
      var init := architects[..|architects| - 1];
      assert forall k :: 0 <= k < |init| ==> init[k] == architects[k];
      SpecialtiesOf(init) + architects[|architects| - 1].specialties
  }

  /** `allSpecialties`: every specialty of every architect, each once. */
  function AllSpecialties(architects: seq<Architect>): (r: seq<string>)
    ensures NoDuplicates(r)
    ensures forall s :: s in r <==> exists k :: 0 <= k < |architects| && s in architects[k].specialties
  {
    Dedupe(SpecialtiesOf(architects))
  }

  // ---------------------------------------------------------------------------
  // Grouping by city

  /** The architects of one city, in input order. */
  function InCity(architects: seq<Architect>, city: string): seq<Architect> {
    if |architects| == 0 then []
    else
      var init, a := architects[..|architects| - 1], architects[|architects| - 1];
      InCity(init, city) + (if a.city == city then [a] else [])
  }

  /** The city of each architect, in input order. */
  function CitiesOf(architects: seq<Architect>): (r: seq<string>)
    ensures |r| == |architects|
    ensures forall k :: 0 <= k < |architects| ==> r[k] == architects[k].city
  {
    seq(|architects|, k requires 0 <= k < |architects| => architects[k].city)
  }

  /** The map view's `architects.reduce(...)`: an accumulator dictionary
      filled in place, one list per city in order of first appearance. */
  method GroupByCity(architects: seq<Architect>) returns (cities: seq<string>, groups: map<string, seq<Architect>>)
    ensures cities == Dedupe(CitiesOf(architects))
    ensures groups.Keys == set c | c in cities
    ensures forall c :: c in groups ==> groups[c] == InCity(architects, c)
  {
    cities, groups := [], map[];
    for i := 0 to |architects|
      invariant cities == Dedupe(CitiesOf(architects[..i]))
      invariant groups.Keys == set c | c in cities
      invariant forall c :: c in groups ==> groups[c] == InCity(architects[..i], c)
    {
      var a := architects[i];
      ghost var old_groups := groups;
      assert architects[..i + 1] == architects[..i] + [a];
      assert CitiesOf(architects[..i + 1]) == CitiesOf(architects[..i]) + [a.city];
      if a.city !in groups {
        InCityAbsent(architects[..i], a.city);
        groups := groups[a.city := []];
        cities := cities + [a.city];
      }
      groups := groups[a.city := groups[a.city] + [a]];
      forall c | c in groups
        ensures groups[c] == InCity(architects[..i + 1], c)
      {
        assert architects[..i + 1][..i] == architects[..i];
        assert architects[..i + 1][i] == a;
        var step := InCity(architects[..i + 1][..i], c) + (if a.city == c then [a] else []);
        assert InCity(architects[..i + 1], c) == step;
      }
    }
    assert architects[..|architects|] == architects;
  }

  lemma {:induction false} InCityAbsent(architects: seq<Architect>, city: string)
    requires city !in CitiesOf(architects)
    ensures InCity(architects, city) == []
  {
    if |architects| > 0 {
      var init := architects[..|architects| - 1];
      assert forall k :: 0 <= k < |init| ==> CitiesOf(init)[k] == CitiesOf(architects)[k];
      assert CitiesOf(architects)[|architects| - 1] == architects[|architects| - 1].city;
      InCityAbsent(init, city);
    }
  }

  /** Total size of the groups of the given cities. */
  function GroupSizes(cities: seq<string>, architects: seq<Architect>): int {
    if |cities| == 0 then 0
    else GroupSizes(cities[..|cities| - 1], architects) + |InCity(architects, cities[|cities| - 1])|
  }

  /** How often `city` occurs in `cities`. */
  function Occurrences(cities: seq<string>, city: string): int {
    if |cities| == 0 then 0
    else Occurrences(cities[..|cities| - 1], city) + (if cities[|cities| - 1] == city then 1 else 0)
  }

  lemma {:induction false} OccursOnce(cities: seq<string>, city: string)
    requires NoDuplicates(cities) && city in cities
    ensures Occurrences(cities, city) == 1
  {
    var init := cities[..|cities| - 1];
    if cities[|cities| - 1] == city {
      OccursNever(init, city);
    } else {
      assert city in init;
      OccursOnce(init, city);
    }
  }

  lemma {:induction false} OccursNever(cities: seq<string>, city: string)
    requires city !in cities
    ensures Occurrences(cities, city) == 0
  {
    if |cities| > 0 {
      OccursNever(cities[..|cities| - 1], city);
    }
  }

  lemma {:induction false} GroupSizesSnoc(cities: seq<string>, architects: seq<Architect>, a: Architect)
    ensures GroupSizes(cities, architects + [a]) == GroupSizes(cities, architects) + Occurrences(cities, a.city)
  {
    assert (architects + [a])[..|architects|] == architects;
    if |cities| > 0 {
      GroupSizesSnoc(cities[..|cities| - 1], architects, a);
    }
  }

  lemma {:induction false} GroupSizesCover(cities: seq<string>, architects: seq<Architect>)
    requires NoDuplicates(cities)
    requires forall k :: 0 <= k < |architects| ==> architects[k].city in cities
    ensures GroupSizes(cities, architects) == |architects|
  {
    if |architects| == 0 {
      GroupSizesEmpty(cities);
    } else {
      var init, a := architects[..|architects| - 1], architects[|architects| - 1];
      GroupSizesCover(cities, init);
      assert architects == init + [a];
      GroupSizesSnoc(cities, init, a);
      OccursOnce(cities, a.city);
    }
  }

  lemma {:induction false} GroupSizesEmpty(cities: seq<string>)
    ensures GroupSizes(cities, []) == 0
  {
    if |cities| > 0 {
      GroupSizesEmpty(cities[..|cities| - 1]);
    }
  }

  /** Each architect lands in exactly one group, the one of its own city:
      the group sizes add up to the number of architects. */
  lemma GroupsPartitionArchitects(architects: seq<Architect>)
    ensures GroupSizes(Dedupe(CitiesOf(architects)), architects) == |architects|
  {
    var cities := Dedupe(CitiesOf(architects));
    forall k | 0 <= k < |architects|
      ensures architects[k].city in cities
    {
      assert CitiesOf(architects)[k] == architects[k].city;
    }
    GroupSizesCover(cities, architects);
  }

  /** A group holds only architects of its city. */
  lemma {:induction false} InCityOnlyThatCity(architects: seq<Architect>, city: string)
    ensures forall a :: a in InCity(architects, city) ==> a.city == city && a in architects
  {
    if |architects| > 0 {
      InCityOnlyThatCity(architects[..|architects| - 1], city);
    }
  }

  // ---------------------------------------------------------------------------
  // Page state

  /** The directory's filter inputs as page state. */
  class Directory {
    var searchTerm: string
    var cityFilter: string
    var specialtyFilter: string
    var sortBy: string

    function Filters(): DirectoryFilters
      reads this
    {
      DirectoryFilters(searchTerm, cityFilter, specialtyFilter, sortBy)
    }

    constructor ()
      ensures Filters() == DefaultFilters()
    {
      searchTerm, cityFilter, specialtyFilter, sortBy := "", "all", "all", "name";
    }

    /** "Réinitialiser": back to the initial inputs, after which no
        architect is filtered out. */
    method Reset()
      modifies this
      ensures Filters() == DefaultFilters()
    {
      searchTerm := "";
      cityFilter := "all";
      specialtyFilter := "all";
      sortBy := "name";
    }
  }
}

/** The public project-calls board of app/appels-projets/page.tsx: the four
    filters, the headline counters, the "urgent" deadline badge and the
    apply button. The millisecond distance from now to a call's application
    deadline is a parameter. */
module ProjectCalls {
  import opened PortalTypes
  import opened Listing
  import opened Deadlines

  /** The board's filter inputs. */
  datatype CallFilters = CallFilters(searchTerm: string, statusFilter: string, categoryFilter: string, locationFilter: string)

  /** The inputs the board starts with and the reset button restores. */
  function DefaultCallFilters(): CallFilters {
    CallFilters("", "all", "all", "all")
  }

  /** The predicate of `filteredProjectCalls`. */
  predicate MatchesCall(fold: Fold, f: CallFilters, c: ProjectCall) {
    && SearchMatches(fold, [c.title, c.client, c.location], f.searchTerm)
    && Passes(f.statusFilter, c.status.Name())
    && Passes(f.categoryFilter, c.category.Name())
    && Passes(f.locationFilter, c.location)
  }

  function FilteredCalls(fold: Fold, f: CallFilters, calls: seq<ProjectCall>): (r: seq<ProjectCall>)
    ensures IsSubsequence(r, calls)
    ensures forall c :: c in r <==> c in calls && MatchesCall(fold, f, c)
    ensures forall x :: multiset(r)[x] == if MatchesCall(fold, f, x) then multiset(calls)[x] else 0
  {
    var keep := c => MatchesCall(fold, f, c);
    FilterCounts(keep, calls);
    Filter(keep, calls)
  }

  /** A call is listed exactly when its title, client or location contains
      the search term (case-folded) and it has the selected status, category
      and location, each select at "all" letting everything through. */
  lemma FilteredCallsIff(fold: Fold, f: CallFilters, calls: seq<ProjectCall>, c: ProjectCall)
    ensures c in FilteredCalls(fold, f, calls) <==>
              && c in calls
              && (Includes(fold(c.title), fold(f.searchTerm))
                  || Includes(fold(c.client), fold(f.searchTerm))
                  || Includes(fold(c.location), fold(f.searchTerm)))
              && (f.statusFilter == "all" || c.status.Name() == f.statusFilter)
              && (f.categoryFilter == "all" || c.category.Name() == f.categoryFilter)
              && (f.locationFilter == "all" || c.location == f.locationFilter)
  {
    SearchThreeIff(fold, c.title, c.client, c.location, f.searchTerm);
  }

  /** With an empty search and every select at "all", nothing is filtered out. */
  lemma DefaultCallFiltersKeepAll(fold: Fold, calls: seq<ProjectCall>)
    requires FoldsEmpty(fold)
    ensures FilteredCalls(fold, DefaultCallFilters(), calls) == calls
  {
    forall k | 0 <= k < |calls|
      ensures MatchesCall(fold, DefaultCallFilters(), calls[k])
    {
      EmptySearchMatches(fold, [calls[k].title, calls[k].client, calls[k].location]);
    }
    FilterKeepsAll(c => MatchesCall(fold, DefaultCallFilters(), c), calls);
  }

  // ---------------------------------------------------------------------------
  // Counters (computed over every call, not only the filtered ones)

  function OpenCount(calls: seq<ProjectCall>): nat {
    Count((c: ProjectCall) => c.status == Open, calls)
  }

  function PublicCount(calls: seq<ProjectCall>): nat {
    Count((c: ProjectCall) => c.category == Public, calls)
  }

  function PrivateCount(calls: seq<ProjectCall>): nat {
    Count((c: ProjectCall) => c.category == Private, calls)
  }

  /** The budget card's sum, before it is shown in millions. */
  function TotalBudget(calls: seq<ProjectCall>): int {
    SumBy((c: ProjectCall) => c.budget, calls)
  }

  /** Every call is public or private, so the two sector cards add up to the
      number of calls; the open card never exceeds it. */
  lemma SectorCountsCoverAllCalls(calls: seq<ProjectCall>)
    ensures PublicCount(calls) + PrivateCount(calls) == |calls|
    ensures OpenCount(calls) <= |calls|
  {
    CountPartition((c: ProjectCall) => c.category == Public, (c: ProjectCall) => c.category == Private, calls);
  }

  /** The total budget is the public budget plus the private budget. */
  lemma BudgetSplitsBySector(calls: seq<ProjectCall>)
    ensures SumWhere((c: ProjectCall) => c.category == Public, (c: ProjectCall) => c.budget, calls)
          + SumWhere((c: ProjectCall) => c.category == Private, (c: ProjectCall) => c.budget, calls)
          == TotalBudget(calls)
  {
    var any := (c: ProjectCall) => c.category == Public || c.category == Private;
    SumWhereDisjoint((c: ProjectCall) => c.category == Public, (c: ProjectCall) => c.category == Private,
                     any, (c: ProjectCall) => c.budget, calls);
    SumWhereAll(any, (c: ProjectCall) => c.budget, calls);
  }

  // ---------------------------------------------------------------------------
  // Card decorations

  /** `isDeadlineNear`: the application deadline, `diffMs` milliseconds from
      now, is one to seven days ahead after rounding up to whole days. */
  predicate IsDeadlineNear(diffMs: int) {
    WithinDays(diffMs, 7)
  }

  /** The "urgent" badge shows exactly for deadlines in (now, now + 7 days];
      a passed deadline never shows it. */
  lemma DeadlineNearIff(diffMs: int)
    ensures IsDeadlineNear(diffMs) <==> 0 < diffMs <= 7 * DayMs
    ensures diffMs <= 0 ==> !IsDeadlineNear(diffMs)
  {
    WithinDaysIff(diffMs, 7);
  }

  /** The apply button and the dialog's application form. */
  predicate ShowsApply(c: ProjectCall) {
    c.status.Name() == "open"
  }

  /** The apply button shows for open calls and only for them, so with the
      status select on "closed" or "awarded" no listed call offers it. */
  lemma ApplyOnlyWhenOpen(fold: Fold, f: CallFilters, calls: seq<ProjectCall>)
    ensures forall c :: ShowsApply(c) <==> c.status == Open
    ensures f.statusFilter in {"closed", "awarded"} ==>
              forall c :: c in FilteredCalls(fold, f, calls) ==> !ShowsApply(c)
  {
  }

  // ---------------------------------------------------------------------------
  // Page state

  class CallBoard {
    var searchTerm: string
    var statusFilter: string
    var categoryFilter: string
    var locationFilter: string

    function Filters(): CallFilters
      reads this
    {
      CallFilters(searchTerm, statusFilter, categoryFilter, locationFilter)
    }

    constructor ()
      ensures Filters() == DefaultCallFilters()
    {
      searchTerm, statusFilter, categoryFilter, locationFilter := "", "all", "all", "all";
    }

    /** "Réinitialiser". */
    method Reset()
      modifies this
      ensures Filters() == DefaultCallFilters()
    {
      searchTerm := "";
      statusFilter := "all";
      categoryFilter := "all";
      locationFilter := "all";
    }
  }
}

/** The visa requests page of app/dashboard/visa/page.tsx: the search and
    status filter and the status counters. */
module Visa {
  import opened Listing
  import opened Options

  /** A digital visa request; `reviewDate` is `null` until it is reviewed. */
  datatype VisaRequest = VisaRequest(
    id: string,
    projectName: string,
    projectType: string,
    location: string,
    submissionDate: string,
    status: string,
    reviewDate: Option<string>,
    surface: string,
    client: string)

  datatype VisaFilters = VisaFilters(searchTerm: string, statusFilter: string)

  function DefaultVisaFilters(): VisaFilters {
    VisaFilters("", "all")
  }

  /** The predicate of `filteredRequests`. */
  predicate MatchesRequest(fold: Fold, f: VisaFilters, r: VisaRequest) {
    SearchMatches(fold, [r.projectName, r.id, r.client], f.searchTerm) && Passes(f.statusFilter, r.status)
  }

  function FilteredRequests(fold: Fold, f: VisaFilters, requests: seq<VisaRequest>): (r: seq<VisaRequest>)
    ensures IsSubsequence(r, requests)
    ensures forall q :: q in r <==> q in requests && MatchesRequest(fold, f, q)
    ensures f.statusFilter != "all" ==> forall k :: 0 <= k < |r| ==> r[k].status == f.statusFilter
    ensures forall x :: multiset(r)[x] == if MatchesRequest(fold, f, x) then multiset(requests)[x] else 0
  {
    var keep := q => MatchesRequest(fold, f, q);
    FilterCounts(keep, requests);
    Filter(keep, requests)
  }

  /** A request is listed exactly when its project name, id or client
      contains the search term (case-folded) and it has the selected status;
      the location and project type are not searched. */
  lemma FilteredRequestsIff(fold: Fold, f: VisaFilters, requests: seq<VisaRequest>, q: VisaRequest)
    ensures q in FilteredRequests(fold, f, requests) <==>
              && q in requests
              && (Includes(fold(q.projectName), fold(f.searchTerm))
                  || Includes(fold(q.id), fold(f.searchTerm))
                  || Includes(fold(q.client), fold(f.searchTerm)))
              && (f.statusFilter == "all" || q.status == f.statusFilter)
  {
    SearchThreeIff(fold, q.projectName, q.id, q.client, f.searchTerm);
  }

  lemma DefaultVisaFiltersKeepAll(fold: Fold, requests: seq<VisaRequest>)
    requires FoldsEmpty(fold)
    ensures FilteredRequests(fold, DefaultVisaFilters(), requests) == requests
  {
    forall k | 0 <= k < |requests|
      ensures MatchesRequest(fold, DefaultVisaFilters(), requests[k])
    {
      EmptySearchMatches(fold, [requests[k].projectName, requests[k].id, requests[k].client]);
    }
    FilterKeepsAll(q => MatchesRequest(fold, DefaultVisaFilters(), q), requests);
  }

  // ---------------------------------------------------------------------------
  // Counters (over every request)

  predicate IsApproved(r: VisaRequest) { r.status == "approved" }
  predicate IsUnderReview(r: VisaRequest) { r.status == "under_review" }
  predicate IsRejected(r: VisaRequest) { r.status == "rejected" }

  /** A status one of the three counters counts. */
  predicate IsCounted(r: VisaRequest) {
    IsApproved(r) || IsUnderReview(r) || IsRejected(r)
  }

  /** The three status cards never add up to more than the total card, and
      they add up to less as soon as one request is in another status, such
      as "submitted". */
  lemma StatusCountersBounded(requests: seq<VisaRequest>)
    ensures Count(IsApproved, requests) + Count(IsUnderReview, requests) + Count(IsRejected, requests)
              == Count(IsCounted, requests)
    ensures Count(IsCounted, requests) <= |requests|
    ensures (exists k :: 0 <= k < |requests| && requests[k].status == "submitted") ==>
              Count(IsApproved, requests) + Count(IsUnderReview, requests) + Count(IsRejected, requests) < |requests|
  {
    CountUnion3(IsApproved, IsUnderReview, IsRejected, IsCounted, requests);
    if exists k :: 0 <= k < |requests| && requests[k].status == "submitted" {
      var k :| 0 <= k < |requests| && requests[k].status == "submitted";
      CountMissed(IsCounted, requests, k);
    }
  }
}

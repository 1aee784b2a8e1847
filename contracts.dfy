/** The contracts page of app/dashboard/contracts/page.tsx: the search and
    status filter and the active-contract counter. */
module Contracts {
  import opened Listing

  /** An architect's contract; `value` is the display string of the amount,
      and `kind` holds the source's `type`, a reserved word in Dafny. */
  datatype Contract = Contract(
    id: string,
    title: string,
    client: string,
    status: string,
    value: string,
    startDate: string,
    endDate: string,
    progress: int,
    location: string,
    kind: string)

  datatype ContractFilters = ContractFilters(searchTerm: string, statusFilter: string)

  function DefaultContractFilters(): ContractFilters {
    ContractFilters("", "all")
  }

  /** The predicate of `filteredContracts`. */
  predicate MatchesContract(fold: Fold, f: ContractFilters, c: Contract) {
    SearchMatches(fold, [c.title, c.client], f.searchTerm) && Passes(f.statusFilter, c.status)
  }

  function FilteredContracts(fold: Fold, f: ContractFilters, contracts: seq<Contract>): (r: seq<Contract>)
    ensures IsSubsequence(r, contracts)
    ensures forall c :: c in r <==> c in contracts && MatchesContract(fold, f, c)
    ensures f.statusFilter != "all" ==> forall k :: 0 <= k < |r| ==> r[k].status == f.statusFilter
    ensures forall x :: multiset(r)[x] == if MatchesContract(fold, f, x) then multiset(contracts)[x] else 0
  {
    var keep := c => MatchesContract(fold, f, c);
    FilterCounts(keep, contracts);
    Filter(keep, contracts)
  }

  /** A contract is listed exactly when its title or client contains the
      search term (case-folded) and it has the selected status. */
  lemma FilteredContractsIff(fold: Fold, f: ContractFilters, contracts: seq<Contract>, c: Contract)
    ensures c in FilteredContracts(fold, f, contracts) <==>
              && c in contracts
              && (Includes(fold(c.title), fold(f.searchTerm)) || Includes(fold(c.client), fold(f.searchTerm)))
              && (f.statusFilter == "all" || c.status == f.statusFilter)
  {
    SearchTwoIff(fold, c.title, c.client, f.searchTerm);
  }

  /** The location and the type are not searched: changing them never
      changes whether a contract is listed. */
  lemma LocationAndKindNotSearched(fold: Fold, f: ContractFilters, c: Contract, location: string, kind: string)
    ensures MatchesContract(fold, f, c.(location := location, kind := kind)) == MatchesContract(fold, f, c)
  {
  }

  lemma DefaultContractFiltersKeepAll(fold: Fold, contracts: seq<Contract>)
    requires FoldsEmpty(fold)
    ensures FilteredContracts(fold, DefaultContractFilters(), contracts) == contracts
  {
    forall k | 0 <= k < |contracts|
      ensures MatchesContract(fold, DefaultContractFilters(), contracts[k])
    {
      EmptySearchMatches(fold, [contracts[k].title, contracts[k].client]);
    }
    FilterKeepsAll(c => MatchesContract(fold, DefaultContractFilters(), c), contracts);
  }

  predicate IsActive(c: Contract) {
    c.status == "active"
  }

  /** "Contrats Actifs": the active contracts among all of them; it equals
      the number listed when the status select is on "active" and the search
      is empty. */
  lemma ActiveCounterSpec(fold: Fold, contracts: seq<Contract>)
    requires FoldsEmpty(fold)
    ensures Count(IsActive, contracts) <= |contracts|
    ensures Count(IsActive, contracts) == |FilteredContracts(fold, ContractFilters("", "active"), contracts)|
  {
    var f := ContractFilters("", "active");
    forall c
      ensures MatchesContract(fold, f, c) == IsActive(c)
    {
      EmptySearchMatches(fold, [c.title, c.client]);
    }
    FilterEquivalent(IsActive, c => MatchesContract(fold, f, c), contracts);
  }
}

/** The member's payments page of app/dashboard/payments/page.tsx: the search
    and status filter, the three amount totals and the "Payer" button. */
module Payments {
  import opened Listing
  import opened Options

  /** A row of the payments table; `paidDate` and the payment method
      (`paidWith`) are `null` until the payment is made. */
  datatype Payment = Payment(
    id: string,
    description: string,
    amount: int,
    currency: string,
    dueDate: string,
    paidDate: Option<string>,
    status: string,
    paidWith: Option<string>,
    invoice: string)

  datatype PaymentFilters = PaymentFilters(searchTerm: string, statusFilter: string)

  function DefaultPaymentFilters(): PaymentFilters {
    PaymentFilters("", "all")
  }

  /** The predicate of `filteredPayments`. */
  predicate MatchesPayment(fold: Fold, f: PaymentFilters, p: Payment) {
    SearchMatches(fold, [p.description, p.id], f.searchTerm) && Passes(f.statusFilter, p.status)
  }

  function FilteredPayments(fold: Fold, f: PaymentFilters, payments: seq<Payment>): (r: seq<Payment>)
    ensures IsSubsequence(r, payments)
    ensures forall p :: p in r <==> p in payments && MatchesPayment(fold, f, p)
    ensures f.statusFilter != "all" ==> forall k :: 0 <= k < |r| ==> r[k].status == f.statusFilter
    ensures forall x :: multiset(r)[x] == if MatchesPayment(fold, f, x) then multiset(payments)[x] else 0
  {
    var keep := p => MatchesPayment(fold, f, p);
    FilterCounts(keep, payments);
    Filter(keep, payments)
  }

  /** A payment is listed exactly when its description or id contains the
      search term (case-folded) and it has the selected status. */
  lemma FilteredPaymentsIff(fold: Fold, f: PaymentFilters, payments: seq<Payment>, p: Payment)
    ensures p in FilteredPayments(fold, f, payments) <==>
              && p in payments
              && (Includes(fold(p.description), fold(f.searchTerm)) || Includes(fold(p.id), fold(f.searchTerm)))
              && (f.statusFilter == "all" || p.status == f.statusFilter)
  {
    SearchTwoIff(fold, p.description, p.id, f.searchTerm);
  }

  lemma DefaultPaymentFiltersKeepAll(fold: Fold, payments: seq<Payment>)
    requires FoldsEmpty(fold)
    ensures FilteredPayments(fold, DefaultPaymentFilters(), payments) == payments
  {
    forall k | 0 <= k < |payments|
      ensures MatchesPayment(fold, DefaultPaymentFilters(), payments[k])
    {
      EmptySearchMatches(fold, [payments[k].description, payments[k].id]);
    }
    FilterKeepsAll(p => MatchesPayment(fold, DefaultPaymentFilters(), p), payments);
  }

  // ---------------------------------------------------------------------------
  // Totals (over every payment, not only the filtered ones)

  predicate IsPaid(p: Payment) {
    p.status == "paid"
  }

  /** Pending and overdue payments both count as still to pay. */
  predicate IsOutstanding(p: Payment) {
    p.status == "pending" || p.status == "overdue"
  }

  /** The statuses the page knows. */
  predicate KnownStatus(p: Payment) {
    p.status == "paid" || p.status == "pending" || p.status == "overdue"
  }

  function Amount(p: Payment): int {
    p.amount
  }

  /** `totalAmount`. */
  function TotalAmount(payments: seq<Payment>): int {
    SumBy(Amount, payments)
  }

  /** `paidAmount`. */
  function PaidAmount(payments: seq<Payment>): int {
    SumWhere(IsPaid, Amount, payments)
  }

  /** `pendingAmount`. */
  function PendingAmount(payments: seq<Payment>): int {
    SumWhere(IsOutstanding, Amount, payments)
  }

  /** When every status is paid, pending or overdue, the paid and pending
      amounts split the total. */
  lemma AmountsSplitTotal(payments: seq<Payment>)
    requires forall k :: 0 <= k < |payments| ==> KnownStatus(payments[k])
    ensures PaidAmount(payments) + PendingAmount(payments) == TotalAmount(payments)
  {
    SumWhereDisjoint(IsPaid, IsOutstanding, KnownStatus, Amount, payments);
    SumWhereAll(KnownStatus, Amount, payments);
  }

  /** With non-negative amounts, neither partial amount exceeds the total;
      without the status condition they may together fall short of it. */
  lemma AmountsBounded(payments: seq<Payment>)
    requires forall k :: 0 <= k < |payments| ==> payments[k].amount >= 0
    ensures 0 <= PaidAmount(payments) <= TotalAmount(payments)
    ensures 0 <= PendingAmount(payments) <= TotalAmount(payments)
    ensures PaidAmount(payments) + PendingAmount(payments) <= TotalAmount(payments)
  {
    SumWhereAtMostSum(IsPaid, Amount, payments);
    SumWhereAtMostSum(IsOutstanding, Amount, payments);
    var either := (p: Payment) => IsPaid(p) || IsOutstanding(p);
    SumWhereDisjoint(IsPaid, IsOutstanding, either, Amount, payments);
    SumWhereAtMostSum(either, Amount, payments);
  }

  /** The "Payer" button. */
  predicate ShowsPayButton(p: Payment) {
    p.status != "paid"
  }

  /** For a payment with a known status, "Payer" shows exactly when its
      amount is counted in the pending total rather than the paid total. */
  lemma PayButtonIffOutstanding(p: Payment)
    requires KnownStatus(p)
    ensures ShowsPayButton(p) <==> IsOutstanding(p)
    ensures ShowsPayButton(p) <==> !IsPaid(p)
  {
  }
}

/** The public events page of app/evenements/page.tsx: the filters, the four
    stat cards and the badges and buttons of each event card and of the
    details dialog. The millisecond distance from now to an event's date is
    a parameter (`diffOf`). */
module Events {
  import opened PortalTypes
  import opened Listing
  import opened Deadlines

  /** The page's filter inputs. */
  datatype EventFilters = EventFilters(searchTerm: string, categoryFilter: string, statusFilter: string)

  function DefaultEventFilters(): EventFilters {
    EventFilters("", "all", "all")
  }

  /** The predicate of `filteredEvents`. */
  predicate MatchesEvent(fold: Fold, f: EventFilters, e: Event) {
    && SearchMatches(fold, [e.title, e.description, e.location], f.searchTerm)
    && Passes(f.categoryFilter, e.category.Name())
    && Passes(f.statusFilter, e.status.Name())
  }

  function FilteredEvents(fold: Fold, f: EventFilters, events: seq<Event>): (r: seq<Event>)
    ensures IsSubsequence(r, events)
    ensures forall e :: e in r <==> e in events && MatchesEvent(fold, f, e)
    ensures forall x :: multiset(r)[x] == if MatchesEvent(fold, f, x) then multiset(events)[x] else 0
  {
    var keep := e => MatchesEvent(fold, f, e);
    FilterCounts(keep, events);
    Filter(keep, events)
  }

  /** An event is listed exactly when its title, description or location
      contains the search term (case-folded) and it has the selected category
      and status. */
  lemma FilteredEventsIff(fold: Fold, f: EventFilters, events: seq<Event>, e: Event)
    ensures e in FilteredEvents(fold, f, events) <==>
              && e in events
              && (Includes(fold(e.title), fold(f.searchTerm))
                  || Includes(fold(e.description), fold(f.searchTerm))
                  || Includes(fold(e.location), fold(f.searchTerm)))
              && (f.categoryFilter == "all" || e.category.Name() == f.categoryFilter)
              && (f.statusFilter == "all" || e.status.Name() == f.statusFilter)
  {
    SearchThreeIff(fold, e.title, e.description, e.location, f.searchTerm);
  }

  lemma DefaultEventFiltersKeepAll(fold: Fold, events: seq<Event>)
    requires FoldsEmpty(fold)
    ensures FilteredEvents(fold, DefaultEventFilters(), events) == events
  {
    forall k | 0 <= k < |events|
      ensures MatchesEvent(fold, DefaultEventFilters(), events[k])
    {
      EmptySearchMatches(fold, [events[k].title, events[k].description, events[k].location]);
    }
    FilterKeepsAll(e => MatchesEvent(fold, DefaultEventFilters(), e), events);
  }

  // ---------------------------------------------------------------------------
  // Per-event values

  /** `isEventSoon`: the event, `diffMs` milliseconds from now, is one to
      three days ahead after rounding up to whole days. */
  predicate IsEventSoon(diffMs: int) {
    WithinDays(diffMs, 3)
  }

  lemma EventSoonIff(diffMs: int)
    ensures IsEventSoon(diffMs) <==> 0 < diffMs <= 3 * DayMs
  {
    WithinDaysIff(diffMs, 3);
  }

  /** `getAvailableSpots`: negative when the event is overbooked. */
  function AvailableSpots(e: Event): int {
    e.capacity - e.registeredCount
  }

  predicate IsUpcoming(e: Event) {
    e.status.Name() == "upcoming"
  }

  /** The "Bientôt" badge. */
  predicate ShowsSoonBadge(e: Event, diffMs: int) {
    IsEventSoon(diffMs) && IsUpcoming(e)
  }

  /** The "Places limitées" badge. */
  predicate ShowsLimitedBadge(e: Event) {
    AvailableSpots(e) <= 5 && IsUpcoming(e)
  }

  /** The "S'inscrire" button. */
  predicate ShowsRegister(e: Event) {
    IsUpcoming(e) && AvailableSpots(e) > 0
  }

  /** The disabled "Complet" button. */
  predicate ShowsFull(e: Event) {
    IsUpcoming(e) && AvailableSpots(e) == 0
  }

  /** The registration form inside the details dialog. */
  predicate DialogOffersRegistration(e: Event) {
    IsUpcoming(e) && e.capacity - e.registeredCount > 0
  }

  /** What the card shows for one event: the register and full buttons
      never show together, neither shows unless the event is upcoming, an
      upcoming event with free places offers registration, and the dialog
      offers it in exactly the same cases as the card. */
  lemma CardButtons(e: Event)
    ensures !(ShowsRegister(e) && ShowsFull(e))
    ensures ShowsRegister(e) || ShowsFull(e) ==> e.status == Upcoming
    ensures ShowsRegister(e) <==> e.status == Upcoming && e.registeredCount < e.capacity
    ensures ShowsFull(e) <==> e.status == Upcoming && e.registeredCount == e.capacity
    ensures DialogOffersRegistration(e) <==> ShowsRegister(e)
    ensures ShowsFull(e) ==> ShowsLimitedBadge(e)
  {
  }

  /** "Places limitées" shows exactly on upcoming events with at most five
      places left, overbooked ones included; beside the register button it
      means one to five places remain. */
  lemma LimitedBadgeIff(e: Event)
    ensures ShowsLimitedBadge(e) <==> e.status == Upcoming && e.capacity - e.registeredCount <= 5
    ensures ShowsRegister(e) && ShowsLimitedBadge(e) <==> e.status == Upcoming && 1 <= AvailableSpots(e) <= 5
    ensures e.status != Upcoming ==> !ShowsLimitedBadge(e)
  {
  }

  /** An overbooked upcoming event shows the "Places limitées" badge but
      neither button: "Complet" is tied to exactly zero places left. */
  lemma OverbookedShowsNoButton(e: Event)
    requires e.status == Upcoming && e.registeredCount > e.capacity
    ensures !ShowsRegister(e) && !ShowsFull(e) && ShowsLimitedBadge(e)
  {
  }

  /** The "Bientôt" badge shows exactly for upcoming events in
      (now, now + 3 days]. */
  lemma SoonBadgeIff(e: Event, diffMs: int)
    ensures ShowsSoonBadge(e, diffMs) <==> e.status == Upcoming && 0 < diffMs <= 3 * DayMs
  {
    EventSoonIff(diffMs);
  }

  /** The price line: "Gratuit" at 0, the amount when positive, nothing on
      the card otherwise. */
  datatype PriceLine = Free | Paid(amount: int) | NoPrice

  function CardPrice(e: Event): (p: PriceLine)
    ensures p.Free? <==> e.price == 0
    ensures p.Paid? <==> e.price > 0
    ensures p.Paid? ==> p.amount == e.price
  {
    if e.price > 0 then Paid(e.price)
    else if e.price == 0 then Free
    else NoPrice
  }

  /** The category badge's label. */
  function CategoryLabel(c: EventCategory): string {
    match c
    case Conference => "Conférence"
    case Formation => "Formation"
    case Meeting => "Assemblée"
    case Visit => "Visite"
  }

  /** Different categories get different labels. */
  lemma CategoryLabelsDistinct(c: EventCategory, d: EventCategory)
    ensures CategoryLabel(c) == CategoryLabel(d) <==> c == d
  {
  }

  // ---------------------------------------------------------------------------
  // Stat cards (computed over every event)

  /** "À venir". */
  function UpcomingCount(events: seq<Event>): nat {
    Count(IsUpcoming, events)
  }

  function Registered(e: Event): int {
    e.registeredCount
  }

  function Capacity(e: Event): int {
    e.capacity
  }

  predicate NotUpcoming(e: Event) {
    !IsUpcoming(e)
  }

  /** "Participants": registrations over every event, whatever its status. */
  function Participants(events: seq<Event>): int {
    SumBy(Registered, events)
  }

  /** "Places disponibles": free places summed over the upcoming events. */
  function PlacesAvailable(events: seq<Event>): int {
    SumBy(AvailableSpots, Filter(IsUpcoming, events))
  }

  /** "Cette semaine": events one to three days ahead, whatever their status. */
  function SoonCount(diffOf: Event -> int, events: seq<Event>): nat {
    Count((e: Event) => IsEventSoon(diffOf(e)), events)
  }

  /** The available places are the upcoming capacity minus the upcoming
      registrations; they are never negative when no upcoming event is
      overbooked. */
  lemma PlacesAvailableSpec(events: seq<Event>)
    ensures PlacesAvailable(events)
         == SumWhere(IsUpcoming, Capacity, events) - SumWhere(IsUpcoming, Registered, events)
    ensures (forall e :: e in events && IsUpcoming(e) ==> e.registeredCount <= e.capacity)
              ==> PlacesAvailable(events) >= 0
  {
    var upcoming := Filter(IsUpcoming, events);
    SumOfDifference(Capacity, Registered, AvailableSpots, upcoming);
    if forall e :: e in events && IsUpcoming(e) ==> e.registeredCount <= e.capacity {
      assert forall k :: 0 <= k < |upcoming| ==> upcoming[k] in events;
      SumNonNegative(AvailableSpots, upcoming);
    }
  }

  /** The participants card counts the registrations of upcoming events and
      of all the others alike; with non-negative registrations it is at
      least the upcoming registrations. Together with the places card it
      adds up to the upcoming capacity plus the registrations of the events
      that are not upcoming. */
  lemma ParticipantsSpec(events: seq<Event>)
    ensures Participants(events) == SumWhere(IsUpcoming, Registered, events) + SumWhere(NotUpcoming, Registered, events)
    ensures (forall k :: 0 <= k < |events| ==> events[k].registeredCount >= 0) ==>
              0 <= SumWhere(IsUpcoming, Registered, events) <= Participants(events)
    ensures Participants(events) + PlacesAvailable(events)
         == SumWhere(IsUpcoming, Capacity, events) + SumWhere(NotUpcoming, Registered, events)
  {
    var any := (e: Event) => true;
    SumWhereDisjoint(IsUpcoming, NotUpcoming, any, Registered, events);
    SumWhereAll(any, Registered, events);
    if forall k :: 0 <= k < |events| ==> events[k].registeredCount >= 0 {
      SumWhereAtMostSum(IsUpcoming, Registered, events);
    }
    PlacesAvailableSpec(events);
  }

  /** The "Cette semaine" card counts by the three-day window alone: an
      event that is not upcoming but dated within it is counted although its
      card shows no "Bientôt" badge. */
  lemma SoonCountIgnoresStatus(diffOf: Event -> int, e: Event)
    requires e.status != Upcoming && 0 < diffOf(e) <= 3 * DayMs
    ensures SoonCount(diffOf, [e]) == 1
    ensures !ShowsSoonBadge(e, diffOf(e))
  {
    EventSoonIff(diffOf(e));
    CountSnoc((x: Event) => IsEventSoon(diffOf(x)), [], e);
    assert [] + [e] == [e];
  }

  /** The soon count never exceeds the number of events, and counts at least
      every upcoming event that carries the "Bientôt" badge. */
  lemma SoonCountBounds(diffOf: Event -> int, events: seq<Event>)
    ensures SoonCount(diffOf, events) <= |events|
    ensures Count((e: Event) => ShowsSoonBadge(e, diffOf(e)), events) <= SoonCount(diffOf, events)
  {
    var badge := (e: Event) => ShowsSoonBadge(e, diffOf(e));
    var soon := (e: Event) => IsEventSoon(diffOf(e));
    forall e | badge(e)
      ensures soon(e)
    {
      assert ShowsSoonBadge(e, diffOf(e));
    }
    CountMonotone(badge, soon, events);
  }

  lemma {:induction false} CountMonotone(p: Event -> bool, q: Event -> bool, events: seq<Event>)
    requires forall e :: p(e) ==> q(e)
    ensures Count(p, events) <= Count(q, events)
  {
    if |events| > 0 {
      var init, e := events[..|events| - 1], events[|events| - 1];
      CountMonotone(p, q, init);
      assert events == init + [e];
      CountSnoc(p, init, e);
      CountSnoc(q, init, e);
    }
  }

  // ---------------------------------------------------------------------------
  // Page state

  class EventsPage {
    var searchTerm: string
    var categoryFilter: string
    var statusFilter: string

    function Filters(): EventFilters
      reads this
    {
      EventFilters(searchTerm, categoryFilter, statusFilter)
    }

    constructor ()
      ensures Filters() == DefaultEventFilters()
    {
      searchTerm, categoryFilter, statusFilter := "", "all", "all";
    }

    /** "Réinitialiser". */
    method Reset()
      modifies this
      ensures Filters() == DefaultEventFilters()
    {
      searchTerm := "";
      categoryFilter := "all";
      statusFilter := "all";
    }
  }
}

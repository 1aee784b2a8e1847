/** The activity history page of app/dashboard/history/page.tsx: the activity
    search and type filter, the reminder counters, the two colour mappings
    and the reminder action buttons. */
module History {
  import opened Listing

  /** An activity; `kind` holds the source's `type`, a reserved word in Dafny. */
  datatype Activity = Activity(id: int, kind: string, action: string, description: string, timestamp: string, status: string)

  /** A reminder; `kind` holds the source's `type`, a reserved word in Dafny. */
  datatype Reminder = Reminder(id: int, title: string, description: string, dueDate: string, priority: string, completed: bool, kind: string)

  datatype ActivityFilters = ActivityFilters(searchTerm: string, typeFilter: string)

  function DefaultActivityFilters(): ActivityFilters {
    ActivityFilters("", "all")
  }

  /** The predicate of `filteredActivities`. */
  predicate MatchesActivity(fold: Fold, f: ActivityFilters, a: Activity) {
    SearchMatches(fold, [a.action, a.description], f.searchTerm) && Passes(f.typeFilter, a.kind)
  }

  function FilteredActivities(fold: Fold, f: ActivityFilters, activities: seq<Activity>): (r: seq<Activity>)
    ensures IsSubsequence(r, activities)
    ensures forall a :: a in r <==> a in activities && MatchesActivity(fold, f, a)
    ensures f.typeFilter != "all" ==> forall k :: 0 <= k < |r| ==> r[k].kind == f.typeFilter
    ensures forall x :: multiset(r)[x] == if MatchesActivity(fold, f, x) then multiset(activities)[x] else 0
  {
    var keep := a => MatchesActivity(fold, f, a);
    FilterCounts(keep, activities);
    Filter(keep, activities)
  }

  /** An activity is listed exactly when its action or description contains
      the search term (case-folded) and it has the selected type. */
  lemma FilteredActivitiesIff(fold: Fold, f: ActivityFilters, activities: seq<Activity>, a: Activity)
    ensures a in FilteredActivities(fold, f, activities) <==>
              && a in activities
              && (Includes(fold(a.action), fold(f.searchTerm)) || Includes(fold(a.description), fold(f.searchTerm)))
              && (f.typeFilter == "all" || a.kind == f.typeFilter)
  {
    SearchTwoIff(fold, a.action, a.description, f.searchTerm);
  }

  lemma DefaultActivityFiltersKeepAll(fold: Fold, activities: seq<Activity>)
    requires FoldsEmpty(fold)
    ensures FilteredActivities(fold, DefaultActivityFilters(), activities) == activities
  {
    forall k | 0 <= k < |activities|
      ensures MatchesActivity(fold, DefaultActivityFilters(), activities[k])
    {
      EmptySearchMatches(fold, [activities[k].action, activities[k].description]);
    }
    FilterKeepsAll(a => MatchesActivity(fold, DefaultActivityFilters(), a), activities);
  }

  // ---------------------------------------------------------------------------
  // Reminders

  predicate IsCompleted(r: Reminder) {
    r.completed
  }

  /** "Rappels Actifs": reminders not yet completed. */
  predicate IsPendingReminder(r: Reminder) {
    !r.completed
  }

  /** The active and completed cards always add up to the number of
      reminders. */
  lemma ReminderCountersSplit(reminders: seq<Reminder>)
    ensures Count(IsPendingReminder, reminders) + Count(IsCompleted, reminders) == |reminders|
  {
    CountPartition(IsPendingReminder, IsCompleted, reminders);
  }

  /** The "Reporter" and "Terminé" buttons. */
  predicate ShowsReminderActions(r: Reminder) {
    !r.completed
  }

  /** The buttons show on exactly the reminders the active card counts, so
      the number of reminders offering them is the active count. */
  lemma ReminderActionsOnActiveOnly(reminders: seq<Reminder>)
    ensures forall r :: ShowsReminderActions(r) <==> IsPendingReminder(r)
    ensures Count(ShowsReminderActions, reminders) == Count(IsPendingReminder, reminders)
  {
    FilterEquivalent(ShowsReminderActions, IsPendingReminder, reminders);
  }

  // ---------------------------------------------------------------------------
  // Colour mappings

  const GrayStatus: string := "text-gray-600 bg-gray-50"
  const GrayPriority: string := "bg-gray-100 text-gray-800"

  /** `getStatusColor`. */
  function StatusColor(status: string): string {
    if status == "success" then "text-green-600 bg-green-50"
    else if status == "warning" then "text-yellow-600 bg-yellow-50"
    else if status == "pending" then "text-blue-600 bg-blue-50"
    else if status == "error" then "text-red-600 bg-red-50"
    else GrayStatus
  }

  /** `getPriorityColor`. */
  function PriorityColor(priority: string): string {
    if priority == "high" then "bg-red-100 text-red-800"
    else if priority == "medium" then "bg-yellow-100 text-yellow-800"
    else if priority == "low" then "bg-green-100 text-green-800"
    else GrayPriority
  }

  /** The four known statuses get four different colours, none of them the
      gray default, and every other status gets the gray default. */
  lemma StatusColorSpec(status: string, other: string)
    ensures StatusColor(status) == GrayStatus <==> status !in {"success", "warning", "pending", "error"}
    ensures (status in {"success", "warning", "pending", "error"} && StatusColor(status) == StatusColor(other))
              ==> status == other
  {
  }

  /** The three known priorities get three different colours, none of them
      the gray default, and every other priority gets the gray default. */
  lemma PriorityColorSpec(priority: string, other: string)
    ensures PriorityColor(priority) == GrayPriority <==> priority !in {"high", "medium", "low"}
    ensures (priority in {"high", "medium", "low"} && PriorityColor(priority) == PriorityColor(other))
              ==> priority == other
  {
  }
}

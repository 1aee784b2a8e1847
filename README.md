# crao_platform portal logic in Dafny

This project models the logic inside the page components of the CRAO
architects' portal, a React/Next.js application. It covers:

- the five-step registration wizard;
- the login flow with its one-time code;
- the filter predicates of every listing page (architects, project calls,
  events, payments, tickets, visa requests, contracts, activity history);
- the sort and the by-city grouping of the architects directory;
- the counters and sums shown on the dashboards;
- the deadline windows (`isDeadlineNear`, `isEventSoon`);
- the certificate-request price;
- the language provider: the French/Arabic toggle, the translation fallback
  chain and the restoring of the saved language.

Each core file has one module. The pages that only compute values are
datatypes, functions and lemmas. Where the page keeps state that its
handlers change, the model is a class with those fields and one method per
handler:

- the registration wizard (`Register.RegisterWizard`);
- the login page (`Login.LoginPage`);
- the filter reset buttons (`Architects.Directory`, `ProjectCalls.CallBoard`,
  `Events.EventsPage`);
- the language provider (`LanguageContext.LanguageProvider`).

Each class method is proved against a pure function, and the properties are
proved as lemmas about those functions. The by-city `reduce` fills a
dictionary in place, so it is the method `Architects.GroupByCity`, a loop
over a `map`.

Shared modules:

- `Listing` holds the substring test (`Includes`), the case-insensitive
  search, the `"all"` sentinel (`Passes`), `Filter`, `Count`, the sums and
  `Dedupe`.
- `PortalTypes` holds the `Architect`, `ProjectCall` and `Event` records of
  types/index.ts.
- `Deadlines` holds the ceiled day window shared by the two deadline tests.

`toLowerCase` is a parameter `fold: string -> string`. Lemmas that need an
empty search to match everything require only `fold("") == ""`.

## Model

| member | source | states |
|---|---|---|
| Register.InitialFormData | app/register/page.tsx:82-106 | every field and sub-field is empty, and no step, in 1..5 or outside it, validates |
| Register.ValidateStep | app/register/page.tsx:129-172 | `validateStep`: the required fields of steps 1 to 4 are non-empty, step 5 also needs the password equal to its confirmation, any other step fails; its consequences are the next rows |
| Register.ValidateStepBounds | app/register/page.tsx:129-172 | only steps 1..5 can validate; step 5 validates iff username, email and password are non-empty and the password equals its confirmation |
| Register.OptionalFieldsIgnored | app/register/page.tsx:129-172 | changing the fixed phone, fax or web site never changes any step's validation |
| Register.PostalCodesIgnored | app/register/page.tsx:129-172 | changing either postal code never changes any step's validation |
| Register.WithField | app/register/page.tsx:112-117 | the named field takes the value; every other field and every sub-field is unchanged |
| Register.WithSub | app/register/page.tsx:119-127 | the named sub-field takes the value; every sibling sub-field, every other group and every top-level field is unchanged |
| Register.IsAccessible | app/register/page.tsx:287 | the step button's `isAccessible`, built on `isStepCompleted`; characterised by `AccessibleIff` |
| Register.AccessibleIff | app/register/page.tsx:174-176 | a step button is enabled iff the step is at or before the current one or its own fields validate |
| Register.AfterNext | app/register/page.tsx:178-182 | the step rises by exactly one iff the current step validates and is below 5, and is otherwise unchanged; it stays in 1..5 |
| Register.AfterPrev | app/register/page.tsx:184-188 | the step falls by exactly one iff it is above 1, and is otherwise unchanged; it stays in 1..5 |
| Register.AfterClick | app/register/page.tsx:287-295 | a click on step k moves there iff k is at or before the current step or step k validates, and otherwise changes nothing; the step stays in 1..5 |
| Register.JumpPastUnvalidatedSteps | app/register/page.tsx:174-176 | from step 1, filling only the account fields enables the step-5 button and the submit guard, with steps 1 to 4 unvalidated |
| Register.MismatchBlocksSubmit | app/register/page.tsx:161-168 | a confirmation that differs from the password blocks submission |
| Register.RegisterWizard.constructor | app/register/page.tsx:80-106 | the wizard starts at step 1 with the empty form |
| Register.RegisterWizard.UpdateFormData | app/register/page.tsx:112-117 | the form becomes `WithField` of the old form; the step is unchanged and stays in 1..5 |
| Register.RegisterWizard.UpdateNestedFormData | app/register/page.tsx:119-127 | the form becomes `WithSub` of the old form; the step is unchanged and stays in 1..5 |
| Register.RegisterWizard.NextStep | app/register/page.tsx:178-182 | the new step is `AfterNext` of the old step; the form is unchanged |
| Register.RegisterWizard.PrevStep | app/register/page.tsx:184-188 | the new step is `AfterPrev` of the old step; the form is unchanged |
| Register.RegisterWizard.ClickStepButton | app/register/page.tsx:287-295 | the new step is `AfterClick`; the form is unchanged |
| Register.RegisterWizard.HandleSubmit | app/register/page.tsx:190-200 | the submission goes ahead iff step 5 validates |
| Login.InitialLogin | app/login/page.tsx:18-21 | the flow starts at the credentials step, with empty credentials and an empty code |
| Login.Apply | app/login/page.tsx:24-41 | reaching the code step from the credentials step needs both credentials; success needs the test code submitted from the code step; choosing a method keeps the step and the code; back only resets the step |
| Login.SubmitLoginIff | app/login/page.tsx:24-30 | `handleLogin` moves to the code step iff email and password are non-empty, and otherwise changes nothing |
| Login.SubmitCodeIff | app/login/page.tsx:32-41 | `handleMFA` succeeds iff the code is exactly "123456", and otherwise changes nothing |
| Login.RunKeepsReachable | app/login/page.tsx:43-60 | every sequence of rendered actions keeps the reachable-state invariant |
| Login.SuccessNeedsCredentialsAndCode | app/login/page.tsx:24-41 | no sequence of actions from the start reaches success without both credentials and the test code |
| Login.SuccessIsTerminal | app/login/page.tsx:43-60 | from success, no sequence of actions changes the state |
| Login.LoginPage.constructor | app/login/page.tsx:18-21 | the page starts in the initial state |
| Login.LoginPage.HandleLogin | app/login/page.tsx:24-30 | the new state is `Apply` of the submit-credentials action |
| Login.LoginPage.HandleMfa | app/login/page.tsx:32-41 | the new state is `Apply` of the submit-code action |
| Login.LoginPage.Back | app/login/page.tsx:208 | the step returns to the credentials step; the credentials and the code are kept |
| Login.LoginPage.SetMfaMethod | app/login/page.tsx:155-175 | the method changes; the step and the code do not |
| Login.LoginPage.SetEmail | app/login/page.tsx:112 | only the email changes |
| Login.LoginPage.SetPassword | app/login/page.tsx:124 | only the password changes |
| Login.LoginPage.SetMfaCode | app/login/page.tsx:190-191 | only the code changes, and only up to six characters |
| Listing.SearchMatchesIff | app/architectes/page.tsx:89-92 | the search matches iff the folded term occurs in the folded text of some searched field |
| Listing.EmptySearchMatches | app/architectes/page.tsx:89-92 | when folding keeps "" empty, the empty term matches any fields |
| Listing.Filter | app/architectes/page.tsx:87-98 | `filter` keeps exactly the elements that pass, in their order (an order-preserving subsequence), and never lengthens the list |
| Listing.FilterCounts | app/architectes/page.tsx:87-98 | `filter` keeps each passing element as many times as it occurs in the input and drops every other element entirely |
| Listing.FilterKeepsAll | app/architectes/page.tsx:87-98 | a filter that every element passes returns the list unchanged |
| Listing.Dedupe | app/architectes/page.tsx:85 | `new Set` keeps every element exactly once and adds nothing |
| Listing.DedupeKeepsFirstOccurrenceOrder | app/architectes/page.tsx:85 | `Array.from(new Set(...))` lists the distinct elements in the order of their first occurrences in the input |
| Listing.CountPartition | app/dashboard/history/page.tsx:204-210 | counts of two complementary predicates add up to the length |
| Listing.CountUnion3 | app/dashboard/tickets/page.tsx:197-218 | counts of three disjoint predicates add up to the count of their union |
| Listing.SumWhereDisjoint | app/dashboard/payments/page.tsx:121-125 | sums over disjoint predicates add up to the sum over their union |
| Listing.SumWhereAtMostSum | app/dashboard/payments/page.tsx:121-125 | with non-negative values, a sum over some elements is at most the sum over all |
| Deadlines.DaysUntil | app/appels-projets/page.tsx:73-79 | `Math.ceil(diffMs / 86400000)` is the least whole number of days covering the difference |
| Deadlines.WithinDaysIff | app/appels-projets/page.tsx:73-79 | the ceiled day count lies in (0, n] iff 0 < diffMs <= n * 86400000 |
| Architects.CityCoordinates | app/architectes/page.tsx:26-32 | the coordinate table has exactly the five cities |
| Architects.DistanceOrNull | app/architectes/page.tsx:324-329 | no distance iff the user location is missing or the city is not in the table; otherwise the distance to the city's coordinates |
| Architects.DistanceVariantsAgree | app/architectes/page.tsx:77-82 | `getArchitectDistance` gives 0 exactly where the grid and list variants give null, and the same distance elsewhere |
| Architects.SearchFieldsIff | app/architectes/page.tsx:89-92 | the search matches iff the folded term is in the folded first name, last name or some specialty; the city is not searched |
| Architects.SpecialtyFilterIff | app/architectes/page.tsx:93-97 | with a specialty filter other than "all", an architect passes iff the search and the city pass and some specialty contains the filter, without folding |
| Architects.FilteredArchitects | app/architectes/page.tsx:87-98 | an order-preserving subsequence holding exactly the matching architects, each as many times as in the input; a city filter other than "all" keeps only that city |
| Architects.FilteredArchitectsIff | app/architectes/page.tsx:87-98 | an architect is listed iff first name, last name or a specialty contains the folded term, the city equals its filter unless "all", and some specialty contains the specialty filter unless "all" |
| Architects.DefaultFiltersKeepAll | app/architectes/page.tsx:240-245 | after a reset every architect is listed |
| Architects.Compare | app/architectes/page.tsx:99-112 | the comparator `switch` on `sortBy`, with `localeCompare` and the distance as parameters; characterised by `CompareSpec` |
| Architects.CompareSpec | app/architectes/page.tsx:99-112 | by "projects" more projects comes first, equal counts tie, and swapping the arguments negates the result; by "distance" the nearer first; by "name" and "city" the collation decides; any other key ties everything |
| Architects.StableSort | app/architectes/page.tsx:99-112 | the sorted list is a permutation of its input |
| Architects.SortByProjects | app/architectes/page.tsx:105-106 | sorting by projects gives non-increasing project counts |
| Architects.SortWithoutOrderIsIdentity | app/architectes/page.tsx:109-110 | a comparator that is always 0 keeps the list as it is |
| Architects.FilteredAndSortedSpec | app/architectes/page.tsx:87-112 | the result is a permutation of the filtered list; by "projects" it is in non-increasing project order; for an unknown key it is the filtered list itself |
| Architects.AllSpecialties | app/architectes/page.tsx:85 | every specialty of every architect appears exactly once, and nothing else appears |
| Architects.GroupByCity | app/architectes/page.tsx:866-874 | the cities are the distinct cities in order of first appearance; each city's group is exactly the architects of that city, in input order |
| Architects.GroupsPartitionArchitects | app/architectes/page.tsx:867-874 | group sizes add up to the number of architects |
| Architects.InCityOnlyThatCity | app/architectes/page.tsx:867-874 | every architect in a city's group has that city |
| Architects.Directory.constructor | app/architectes/page.tsx:36-39 | the directory starts with the default filters |
| Architects.Directory.Reset | app/architectes/page.tsx:240-245 | the reset button restores the default filters |
| ProjectCalls.FilteredCalls | app/appels-projets/page.tsx:36-46 | an order-preserving subsequence holding exactly the matching calls, each as many times as in the input |
| ProjectCalls.FilteredCallsIff | app/appels-projets/page.tsx:37-45 | a call is listed iff title, client or location contains the folded term and status, category and location equal their filters unless "all" |
| ProjectCalls.DefaultCallFiltersKeepAll | app/appels-projets/page.tsx:204-211 | after a reset every call is listed |
| ProjectCalls.SectorCountsCoverAllCalls | app/appels-projets/page.tsx:133-148 | the public and private counters add up to the number of calls; the open counter is at most that |
| ProjectCalls.BudgetSplitsBySector | app/appels-projets/page.tsx:118 | the total budget is the public budget plus the private budget |
| ProjectCalls.IsDeadlineNear | app/appels-projets/page.tsx:73-79 | `isDeadlineNear` on the millisecond difference: the ceiled day count lies in (0, 7]; characterised by `DeadlineNearIff` |
| ProjectCalls.DeadlineNearIff | app/appels-projets/page.tsx:73-79 | a deadline is near iff it is more than 0 and at most 7 days of milliseconds away |
| ProjectCalls.ApplyOnlyWhenOpen | app/appels-projets/page.tsx:364 | the apply button shows iff the call is open |
| ProjectCalls.CallBoard.constructor | app/appels-projets/page.tsx:30-33 | the board starts with the default filters |
| ProjectCalls.CallBoard.Reset | app/appels-projets/page.tsx:204-211 | the reset button restores the default filters |
| Events.FilteredEvents | app/evenements/page.tsx:31-40 | an order-preserving subsequence holding exactly the matching events, each as many times as in the input |
| Events.FilteredEventsIff | app/evenements/page.tsx:31-40 | an event is listed iff title, description or location contains the folded term and category and status equal their filters unless "all" |
| Events.DefaultEventFiltersKeepAll | app/evenements/page.tsx:198-203 | after a reset every event is listed |
| Events.EventSoonIff | app/evenements/page.tsx:74-80 | an event is soon iff it is more than 0 and at most 3 days of milliseconds away |
| Events.AvailableSpots | app/evenements/page.tsx:82-84 | `getAvailableSpots`: capacity minus registrations, negative when overbooked; its uses are the next rows |
| Events.CardButtons | app/evenements/page.tsx:273-283 | the register and full buttons never show together and only for upcoming events; register iff seats remain, full iff none remain; the dialog form iff the register button; a full event has the limited-places badge |
| Events.ShowsLimitedBadge | app/evenements/page.tsx:251 | the "Places limitées" condition; characterised by `LimitedBadgeIff` |
| Events.LimitedBadgeIff | app/evenements/page.tsx:251 | the badge shows iff the event is upcoming with at most five places left, overbooked included; beside the register button iff one to five places remain; never on an event that is not upcoming |
| Events.OverbookedShowsNoButton | app/evenements/page.tsx:273-283 | an upcoming event with more registrations than seats shows neither button |
| Events.SoonBadgeIff | app/evenements/page.tsx:221 | the soon badge shows iff the event is upcoming and within 3 days |
| Events.CardPrice | app/evenements/page.tsx:257-268 | a price of 0 reads "Gratuit", a positive price shows the amount, and otherwise no price line |
| Events.CategoryLabelsDistinct | app/evenements/page.tsx:59-71 | the four categories have four different labels |
| Events.PlacesAvailableSpec | app/evenements/page.tsx:140 | the places stat is the upcoming capacity minus the upcoming registrations, non-negative when no event is overbooked |
| Events.Participants | app/evenements/page.tsx:125 | the "Participants" card: registrations summed over every event; characterised by `ParticipantsSpec` |
| Events.ParticipantsSpec | app/evenements/page.tsx:125-140 | participants are the upcoming plus the other registrations; with non-negative registrations at least the upcoming ones; participants plus places equal the upcoming capacity plus the other registrations |
| Events.SoonCountIgnoresStatus | app/evenements/page.tsx:153-154 | the "Cette semaine" card counts an event that is not upcoming but dated within three days, whose card shows no "Bientôt" badge |
| Events.SoonCountBounds | app/evenements/page.tsx:153-154 | the "Cette semaine" card is at most the number of events and at least the number of "Bientôt" badges |
| Events.EventsPage.constructor | app/evenements/page.tsx:27-29 | the page starts with the default filters |
| Events.EventsPage.Reset | app/evenements/page.tsx:198-203 | the reset button restores the default filters |
| EServices.ShownPanel | app/dashboard/e-services/page.tsx:152-158 | a panel is shown iff a service is selected and its id is one of the three |
| EServices.SelectServiceShowsItsPanel | app/dashboard/e-services/page.tsx:141 | selecting a service shows a panel, makes only its card active, and shows a panel different from the other services' panels |
| EServices.Find | app/dashboard/e-services/page.tsx:580-581 | a found entry is in the table with the sought value; nothing is found iff no entry has it |
| EServices.TablesHaveDistinctValues | app/dashboard/e-services/page.tsx:563-573 | the entries of each table have distinct values |
| EServices.TotalPrice | app/dashboard/e-services/page.tsx:580-582 | `totalPrice`: the found type's price or 0, plus the found delivery's price or 0, plus 50 when urgent; characterised by `TotalPriceSpec` |
| EServices.TotalPriceSpec | app/dashboard/e-services/page.tsx:563-582 | the total equals the listed price; it lies in [0, 175]; the empty form costs 0 and competition, postal and urgent costs 175 |
| EServices.UrgentToggle | app/dashboard/e-services/page.tsx:664 | toggling urgent moves the total by exactly 50 and changes no other field |
| EServices.SubmitNeedsBothSelections | app/dashboard/e-services/page.tsx:685-698 | submit is enabled iff both selections are found in their tables; the urgent line shows iff the total includes the surcharge |
| Payments.FilteredPayments | app/dashboard/payments/page.tsx:113-119 | an order-preserving subsequence holding exactly the matching payments, each as many times as in the input, all with the filtered status unless "all" |
| Payments.FilteredPaymentsIff | app/dashboard/payments/page.tsx:113-119 | a payment is listed iff its description or id contains the folded term and its status equals the filter unless "all" |
| Payments.DefaultPaymentFiltersKeepAll | app/dashboard/payments/page.tsx:113-119 | with an empty search and "all", every payment is listed |
| Payments.TotalAmount | app/dashboard/payments/page.tsx:121 | `totalAmount`: the amounts of all payments summed |
| Payments.PaidAmount | app/dashboard/payments/page.tsx:122 | `paidAmount`: the amounts of the paid payments summed |
| Payments.PendingAmount | app/dashboard/payments/page.tsx:123-125 | `pendingAmount`: the amounts of the pending and overdue payments summed; the three totals are related by the next two rows |
| Payments.AmountsSplitTotal | app/dashboard/payments/page.tsx:121-125 | when every status is paid, pending or overdue, paid plus pending equals the total |
| Payments.AmountsBounded | app/dashboard/payments/page.tsx:121-125 | with non-negative amounts, paid and pending are each between 0 and the total |
| Payments.PayButtonIffOutstanding | app/dashboard/payments/page.tsx:342 | the "Payer" button shows iff the payment is not paid |
| Tickets.FilteredTickets | app/dashboard/tickets/page.tsx:188-195 | an order-preserving subsequence holding exactly the matching tickets, each as many times as in the input |
| Tickets.FilteredTicketsIff | app/dashboard/tickets/page.tsx:189-193 | a ticket is listed iff title or description contains the folded term and status and priority equal their filters unless "all" |
| Tickets.DefaultTicketFiltersKeepAll | app/dashboard/tickets/page.tsx:188-195 | with an empty search and "all", every ticket is listed |
| Tickets.StatusCountersBounded | app/dashboard/tickets/page.tsx:197-218 | open, in-progress and resolved add up to at most the total, and to less when a ticket is closed |
| Tickets.Split | app/dashboard/tickets/page.tsx:424-425 | `split(" ")` gives at least one piece, no piece holds a space, and the last piece is empty iff the string is empty or ends in a space |
| Tickets.JoinSplit | app/dashboard/tickets/page.tsx:424-425 | joining the pieces with single spaces gives back the string |
| Tickets.Initials | app/dashboard/tickets/page.tsx:424-427 | the avatar initials, `split(" ")`, first characters, `join("")`; characterised by the next two rows |
| Tickets.InitialsAreWordStarts | app/dashboard/tickets/page.tsx:424-427 | the initials are the non-space characters that start the string or follow a space |
| Tickets.InitialsOfTwoNames | app/dashboard/tickets/page.tsx:424-427 | a first and a last name without spaces give their two first letters |
| Visa.FilteredRequests | app/dashboard/visa/page.tsx:133-140 | an order-preserving subsequence holding exactly the matching requests, each as many times as in the input |
| Visa.FilteredRequestsIff | app/dashboard/visa/page.tsx:134-138 | a request is listed iff project name, id or client contains the folded term and its status equals the filter unless "all" |
| Visa.DefaultVisaFiltersKeepAll | app/dashboard/visa/page.tsx:133-140 | with an empty search and "all", every request is listed |
| Visa.StatusCountersBounded | app/dashboard/visa/page.tsx:142-167 | approved, under-review and rejected add up to at most the total, and to less when a request is submitted |
| Contracts.FilteredContracts | app/dashboard/contracts/page.tsx:105-111 | an order-preserving subsequence holding exactly the matching contracts, each as many times as in the input, all with the filtered status unless "all" |
| Contracts.FilteredContractsIff | app/dashboard/contracts/page.tsx:106-109 | a contract is listed iff title or client contains the folded term and its status equals the filter unless "all" |
| Contracts.LocationAndKindNotSearched | app/dashboard/contracts/page.tsx:106-108 | changing location or type never changes whether a contract is listed |
| Contracts.DefaultContractFiltersKeepAll | app/dashboard/contracts/page.tsx:105-111 | with an empty search and "all", every contract is listed |
| Contracts.ActiveCounterSpec | app/dashboard/contracts/page.tsx:115-124 | the active counter is at most the total and equals the number listed with an empty search and "active" |
| History.FilteredActivities | app/dashboard/history/page.tsx:181-187 | an order-preserving subsequence holding exactly the matching activities, each as many times as in the input, all of the filtered type unless "all" |
| History.FilteredActivitiesIff | app/dashboard/history/page.tsx:181-187 | an activity is listed iff action or description contains the folded term and its type equals the filter unless "all" |
| History.DefaultActivityFiltersKeepAll | app/dashboard/history/page.tsx:181-187 | with an empty search and "all", every activity is listed |
| History.ReminderCountersSplit | app/dashboard/history/page.tsx:204-210 | active plus completed reminders equal the number of reminders |
| History.ReminderActionsOnActiveOnly | app/dashboard/history/page.tsx:410-419 | the action buttons show iff the reminder is not completed, so as often as the active counter says |
| History.StatusColor | app/dashboard/history/page.tsx:142-155 | `getStatusColor`; characterised by `StatusColorSpec` |
| History.PriorityColor | app/dashboard/history/page.tsx:157-168 | `getPriorityColor`; characterised by `PriorityColorSpec` |
| History.StatusColorSpec | app/dashboard/history/page.tsx:142-155 | the gray default iff the status is unknown; the four known statuses have four different colours |
| History.PriorityColorSpec | app/dashboard/history/page.tsx:157-168 | the gray default iff the priority is unknown; the three known priorities have three different colours |
| LanguageContext.DirectionOf | contexts/language-context.tsx:21 | the document is right-to-left iff the language is Arabic |
| LanguageContext.ParseSaved | contexts/language-context.tsx:28-34 | a saved value is accepted iff it is exactly "fr" or "ar", as that language |
| LanguageContext.SavedCodeRoundTrip | contexts/language-context.tsx:24-31 | what is stored for a language is accepted back as the same language |
| LanguageContext.AfterRestore | contexts/language-context.tsx:28-34 | a saved "fr" or "ar" becomes the language; anything else leaves it unchanged |
| LanguageContext.MountAsWritten | contexts/language-context.tsx:17-34 | with the effects in declared order, whatever was saved, the provider mounts in French and the stored value becomes "fr" |
| LanguageContext.SavedArabicLostAsWritten | contexts/language-context.tsx:19-34 | with the effects in declared order, a saved "ar" mounts in French and is overwritten by "fr" |
| LanguageContext.Mount | contexts/language-context.tsx:17-34 | reading the saved value first, the mounted language is the restored one, and storage and document follow it |
| LanguageContext.MountRestoresSaved | contexts/language-context.tsx:17-34 | a stored language is mounted again and stays stored; an invalid saved value mounts in French |
| LanguageContext.Translate | contexts/language-context.tsx:36-38 | `t(key)`; characterised by `TranslateSpec` |
| LanguageContext.TranslateSpec | contexts/language-context.tsx:36-38 | `t` gives the current entry if non-empty, else the French one if non-empty, else the key; a non-empty key never gives ""; French never reads the Arabic table |
| LanguageContext.LanguageProvider.constructor | contexts/language-context.tsx:17-34 | the provider mounts in the corrected order (see ## Findings): in the restored language, with storage and document in step |
| LanguageContext.LanguageProvider.SyncDocument | contexts/language-context.tsx:19-26 | the direction, the `lang` attribute and the stored value follow the language |
| LanguageContext.LanguageProvider.RestoreSaved | contexts/language-context.tsx:28-34 | the language becomes `AfterRestore` of the saved value; nothing else changes |
| LanguageContext.LanguageProvider.SetLanguage | contexts/language-context.tsx:19-26 | the language is the one set, with storage and document in step |
| LanguageContext.UseLanguage | contexts/language-context.tsx:45-51 | an error, with the provider message, iff there is no provider; otherwise the provider's value |
| LanguageSwitcher.Toggled | components/language-switcher.tsx:10-13 | the new language's code is "ar" from "fr" and "fr" otherwise |
| LanguageSwitcher.ToggleSpec | components/language-switcher.tsx:10-13 | the toggle always changes the language and undoes itself; any code but "fr" goes to "fr"; on codes it undoes itself iff the code is "fr" or "ar" |
| LanguageSwitcher.LabelNamesTarget | components/language-switcher.tsx:18 | the label names the language a click switches to, never the current one |
| LanguageSwitcher.ToggleLanguage | components/language-switcher.tsx:10-13 | the provider's language becomes the toggled one, with storage and document in step |

## Left out

- Distances: the haversine formula is floating-point trigonometry, so it is a parameter `haversine`. The distance sort, the map's top-five list and the marker positions are not part of this model.
- The "name" and "city" sort orders: `localeCompare` is locale collation, so it is a parameter `collate`. The model sorts with it but proves only the "projects" order and the fallback order.
- Architects.AllSpecialties: the contract does not state that the specialties keep the order of their first appearance.
- Architects.GroupByCity: JavaScript lists integer-like object keys first in `Object.entries`. The model keeps first-appearance order; city names are not integer-like.
- Geolocation, which sets the user location, is not modelled; the user location is a parameter.
- Dates and the clock: parsing date strings and reading the current time are outside the model. The deadline tests take the millisecond difference as an integer.
- The "Ce Mois" stat of the history page depends on the clock and is not modelled.
- The day count divides in exact arithmetic, not in floating point. The two agree for whole-millisecond differences of realistic size.
- Budget display rounding (`toFixed` in millions) is presentation and is not modelled.
- Timers, router navigation, `alert` and `console.log` are not modelled. This covers the registration submit delay, the login redirect and the payment dialog.
- `localStorage` and `document.documentElement` are modelled as fields of the language provider.
- Mock data and translation tables come from modules not shown here. They are parameters.
- JSX rendering, the UI components, and the settings and profile pages are not modelled.
- Register.RegisterWizard.HandleSubmit: the HTML `required` attributes, which the browser checks before the handler runs, are not modelled.
- The payment-service and project-submission panels of the e-services page only render forms and log, so they are not modelled.
- LanguageContext.UseLanguage: the context value holds the language and `isRTL` but not the functions `t` and `setLanguage`. Those are the provider's methods `T` and `SetLanguage`.
- Login.LoginPage.SetEmail: the field handlers are modelled for the step whose form renders them.
- Payments.AmountsSplitTotal: JavaScript `number` fields (amounts, budgets, capacities, registrations, prices, project counts) are unbounded integers here. With fractional values the page sums in floating point, and the identity can be off by rounding.
- ProjectCalls.BudgetSplitsBySector: the same integer reading of `number`; with fractional budgets the floating-point sums can differ by rounding.
- Events.PlacesAvailableSpec: the same integer reading of `number` for capacities and registrations.
- Events.ParticipantsSpec: the same integer reading of `number` for capacities and registrations.
- Tickets.Initials: JavaScript strings are UTF-16, and `n[0]` takes one code unit, which is half of a surrogate pair when a name starts with a character outside the Basic Multilingual Plane. A Dafny `char` is a whole character, so the model gives the whole character there.
- Login.LoginPage.SetMfaCode: `maxLength={6}` counts UTF-16 code units; the model counts characters. The two differ only for characters outside the Basic Multilingual Plane.
- Architects.DistanceOrNull: `cityCoordinates[city]` is a plain-object lookup, so a city named after an `Object.prototype` member ("constructor", "toString", "__proto__") finds an inherited value and the distance becomes NaN. The model assumes city names are not such names and treats them as absent.
- Architects.GroupByCity: for a city named after an `Object.prototype` member, `acc[city].push` throws a TypeError. The model assumes city names are not such names.
- LanguageContext.Translate: for a key named after an `Object.prototype` member, the table lookup returns an inherited function. The model assumes translation keys are not such names.

## Findings

| source | as written | input that shows it | evidently intended | confidence | as-written member | corrected member |
|---|---|---|---|---|---|---|
| contexts/language-context.tsx:19-34 | the effect that stores the language is declared before the effect that reads the saved language. On mount it stores "fr" first, so the reading effect always sees "fr" | saved language "ar", then a reload | the saved "ar" becomes the language on reload | high; not executed | LanguageContext.MountAsWritten (shown by LanguageContext.SavedArabicLostAsWritten) | LanguageContext.Mount (proved by LanguageContext.MountRestoresSaved; used by LanguageContext.LanguageProvider.constructor) |

/** The support tickets page of app/dashboard/tickets/page.tsx: the search,
    status and priority filters, the status counters and the initials shown
    in a message author's avatar. */
module Tickets {
  import opened Listing

  datatype Message = Message(id: int, author: string, content: string, timestamp: string, isUser: bool)

  datatype Ticket = Ticket(
    id: string,
    title: string,
    description: string,
    status: string,
    priority: string,
    category: string,
    createdAt: string,
    updatedAt: string,
    assignedTo: string,
    project: string,
    messages: seq<Message>)

  datatype TicketFilters = TicketFilters(searchTerm: string, statusFilter: string, priorityFilter: string)

  function DefaultTicketFilters(): TicketFilters {
    TicketFilters("", "all", "all")
  }

  /** The predicate of `filteredTickets`. */
  predicate MatchesTicket(fold: Fold, f: TicketFilters, t: Ticket) {
    && SearchMatches(fold, [t.title, t.description], f.searchTerm)
    && Passes(f.statusFilter, t.status)
    && Passes(f.priorityFilter, t.priority)
  }

  function FilteredTickets(fold: Fold, f: TicketFilters, tickets: seq<Ticket>): (r: seq<Ticket>)
    ensures IsSubsequence(r, tickets)
    ensures forall t :: t in r <==> t in tickets && MatchesTicket(fold, f, t)
    ensures forall x :: multiset(r)[x] == if MatchesTicket(fold, f, x) then multiset(tickets)[x] else 0
  {
    var keep := t => MatchesTicket(fold, f, t);
    FilterCounts(keep, tickets);
    Filter(keep, tickets)
  }

  /** A ticket is listed exactly when its title or description contains the
      search term (case-folded) and it has the selected status and priority. */
  lemma FilteredTicketsIff(fold: Fold, f: TicketFilters, tickets: seq<Ticket>, t: Ticket)
    ensures t in FilteredTickets(fold, f, tickets) <==>
              && t in tickets
              && (Includes(fold(t.title), fold(f.searchTerm)) || Includes(fold(t.description), fold(f.searchTerm)))
              && (f.statusFilter == "all" || t.status == f.statusFilter)
              && (f.priorityFilter == "all" || t.priority == f.priorityFilter)
  {
    SearchTwoIff(fold, t.title, t.description, f.searchTerm);
  }

  lemma DefaultTicketFiltersKeepAll(fold: Fold, tickets: seq<Ticket>)
    requires FoldsEmpty(fold)
    ensures FilteredTickets(fold, DefaultTicketFilters(), tickets) == tickets
  {
    forall k | 0 <= k < |tickets|
      ensures MatchesTicket(fold, DefaultTicketFilters(), tickets[k])
    {
      EmptySearchMatches(fold, [tickets[k].title, tickets[k].description]);
    }
    FilterKeepsAll(t => MatchesTicket(fold, DefaultTicketFilters(), t), tickets);
  }

  // ---------------------------------------------------------------------------
  // Counters (over every ticket)

  predicate IsOpen(t: Ticket) { t.status == "open" }
  predicate IsInProgress(t: Ticket) { t.status == "in_progress" }
  predicate IsResolved(t: Ticket) { t.status == "resolved" }

  /** The open, in-progress and resolved cards never add up to more than the
      total card; a closed ticket makes them add up to less. */
  lemma StatusCountersBounded(tickets: seq<Ticket>)
    ensures Count(IsOpen, tickets) + Count(IsInProgress, tickets) + Count(IsResolved, tickets) <= |tickets|
    ensures (exists k :: 0 <= k < |tickets| && tickets[k].status == "closed") ==>
              Count(IsOpen, tickets) + Count(IsInProgress, tickets) + Count(IsResolved, tickets) < |tickets|
  {
    var counted := (t: Ticket) => IsOpen(t) || IsInProgress(t) || IsResolved(t);
    CountUnion3(IsOpen, IsInProgress, IsResolved, counted, tickets);
    if exists k :: 0 <= k < |tickets| && tickets[k].status == "closed" {
      var k :| 0 <= k < |tickets| && tickets[k].status == "closed";
      CountMissed(counted, tickets, k);
    }
  }

  // ---------------------------------------------------------------------------
  // Author initials

  /** `s.split(" ")`: the pieces between single spaces, empty pieces
      included, so there is always at least one. */
  function Split(s: string): (parts: seq<string>)
    ensures |parts| >= 1
    ensures forall k :: 0 <= k < |parts| ==> ' ' !in parts[k]
    ensures |parts[|parts| - 1]| == 0 <==> |s| == 0 || s[|s| - 1] == ' '
  {
    if |s| == 0 then [""]
    else
      var parts := Split(s[..|s| - 1]);
      var c := s[|s| - 1];
      if c == ' ' then parts + [""]
      else parts[..|parts| - 1] + [parts[|parts| - 1] + [c]]
  }

  /** `parts.join(sep)`. */
  function Join(parts: seq<string>, sep: string): string {
    if |parts| == 0 then ""
    else if |parts| == 1 then parts[0]
    else Join(parts[..|parts| - 1], sep) + sep + parts[|parts| - 1]
  }

  /** Splitting on spaces loses nothing: joining the pieces back with single
      spaces gives the original string. */
  lemma {:induction false} JoinSplit(s: string)
    ensures Join(Split(s), " ") == s
  {
    if |s| > 0 {
      var init, c := s[..|s| - 1], s[|s| - 1];
      JoinSplit(init);
      var parts := Split(init);
      assert s == init + [c];
      if c == ' ' {
        assert (parts + [""])[..|parts|] == parts;
      } else {
        JoinLastExtended(parts, " ", c);
      }
    }
  }

  lemma JoinLastExtended(parts: seq<string>, sep: string, c: char)
    requires |parts| >= 1
    ensures Join(parts[..|parts| - 1] + [parts[|parts| - 1] + [c]], sep) == Join(parts, sep) + [c]
  {
    var next := parts[..|parts| - 1] + [parts[|parts| - 1] + [c]];
    if |parts| > 1 {
      assert next[..|next| - 1] == parts[..|parts| - 1];
    }
  }

  /** `.map(n => n[0]).join("")`: the first character of every piece; an
      empty piece gives `undefined`, which `join` writes as nothing. */
  function Heads(parts: seq<string>): string {
    if |parts| == 0 then ""
    else
      var p := parts[|parts| - 1];
      Heads(parts[..|parts| - 1]) + (if |p| > 0 then [p[0]] else [])
  }

  /** The avatar's initials. */
  function Initials(author: string): string {
    Heads(Split(author))
  }

  /** A reference definition: the characters that are not spaces and start
      the string or follow a space. */
  function WordStarts(s: string): string {
    if |s| == 0 then ""
    else
      var n := |s| - 1;
      WordStarts(s[..n]) + (if s[n] != ' ' && (n == 0 || s[n - 1] == ' ') then [s[n]] else [])
  }

  lemma HeadsSnoc(parts: seq<string>, p: string)
    ensures Heads(parts + [p]) == Heads(parts) + (if |p| > 0 then [p[0]] else [])
  {
    assert (parts + [p])[..|parts|] == parts;
  }

  lemma HeadsExtendLast(parts: seq<string>, c: char)
    requires |parts| >= 1
    ensures var last := parts[|parts| - 1];
            Heads(parts[..|parts| - 1] + [last + [c]]) == Heads(parts) + (if |last| == 0 then [c] else [])
  {
    var init, last := parts[..|parts| - 1], parts[|parts| - 1];
    HeadsSnoc(init, last + [c]);
    HeadsSnoc(init, last);
    assert parts == init + [last];
  }

  lemma WordStartsSnoc(s: string, c: char)
    ensures WordStarts(s + [c]) == WordStarts(s) + (if c != ' ' && (|s| == 0 || s[|s| - 1] == ' ') then [c] else [])
  {
    assert (s + [c])[..|s|] == s;
  }

  /** The initials are the first character of every space-separated word,
      runs of spaces and leading or trailing spaces adding nothing. */
  lemma {:induction false} InitialsAreWordStarts(s: string)
    ensures Initials(s) == WordStarts(s)
  {
    if |s| > 0 {
      var init, c := s[..|s| - 1], s[|s| - 1];
      InitialsAreWordStarts(init);
      assert s == init + [c];
      WordStartsSnoc(init, c);
      var parts := Split(init);
      if c == ' ' {
        HeadsSnoc(parts, "");
      } else {
        HeadsExtendLast(parts, c);
      }
    }
  }

  /** A word without spaces contributes its first character, whatever came
      before the space in front of it. */
  lemma {:induction false} WordStartsAfterSpace(s: string, w: string)
    requires |w| > 0 && ' ' !in w
    ensures WordStarts(s + " " + w) == WordStarts(s) + [w[0]]
  {
    if |w| == 1 {
      WordStartsSnoc(s + " ", w[0]);
      WordStartsSnoc(s, ' ');
      assert s + " " + w == (s + " ") + [w[0]];
    } else {
      var init, c := w[..|w| - 1], w[|w| - 1];
      assert ' ' !in init by {
        assert forall k :: 0 <= k < |init| ==> init[k] == w[k];
      }
      WordStartsAfterSpace(s, init);
      assert s + " " + w == (s + " " + init) + [c];
      WordStartsSnoc(s + " " + init, c);
    }
  }

  lemma {:induction false} WordStartsOfWord(w: string)
    requires |w| > 0 && ' ' !in w
    ensures WordStarts(w) == [w[0]]
  {
    if |w| > 1 {
      var init, c := w[..|w| - 1], w[|w| - 1];
      assert ' ' !in init by {
        assert forall k :: 0 <= k < |init| ==> init[k] == w[k];
      }
      WordStartsOfWord(init);
      assert w == init + [c];
      WordStartsSnoc(init, c);
    }
  }

  /** A first and a last name, each without spaces, give two initials: "Jean
      Dupont" is shown as "JD". */
  lemma InitialsOfTwoNames(first: string, last: string)
    requires |first| > 0 && ' ' !in first
    requires |last| > 0 && ' ' !in last
    ensures Initials(first + " " + last) == [first[0], last[0]]
  {
    InitialsAreWordStarts(first + " " + last);
    WordStartsAfterSpace(first, last);
    WordStartsOfWord(first);
  }
}

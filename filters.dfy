/**
 * The two list pages: the home page's search (case-insensitive title
 * substring) combined with a category choice, and the my-events page, which
 * shows the locally created events and opens an edit dialog for one of them.
 * Lower-casing is ASCII only.
 */
module Filters {
  import opened Wrappers
  import opened Events
  import Seqs
  import UseEvents

  /** ASCII `toLowerCase` of one character. */
  function LowerChar(c: char): (d: char)
    ensures 'A' <= c <= 'Z' ==> d as int == c as int + 32
    ensures !('A' <= c <= 'Z') ==> d == c
  {
    if 'A' <= c <= 'Z' then (c as int + 32) as char else c
  }

  /** ASCII `toLowerCase`. */
  function Lower(s: string): (r: string)
    ensures |r| == |s|
    ensures forall i :: 0 <= i < |s| ==> r[i] == LowerChar(s[i])
  {
    seq(|s|, i requires 0 <= i < |s| => LowerChar(s[i]))
  }

  /** `sub` occurs in `s` starting at index `i`. */
  predicate OccursAt(s: string, sub: string, i: int) {
    0 <= i <= |s| - |sub| && s[i..i + |sub|] == sub
  }

  /** `s.includes(sub)`. */
  predicate Includes(s: string, sub: string) {
    exists i :: 0 <= i <= |s| && OccursAt(s, sub, i)
  }

  /** The home page's callback for a search term and a selected category. */
  function Matches(searchTerm: string, selectedCategory: string): Event -> bool {
    (e: Event) =>
      Includes(Lower(e.title), Lower(searchTerm)) &&
      (selectedCategory == "All" || e.category == selectedCategory)
  }

  /** `filteredEvents` of the home page. */
  function FilteredEvents(events: seq<Event>, searchTerm: string, selectedCategory: string): (r: seq<Event>)
    ensures forall e :: e in r <==>
              e in events && Includes(Lower(e.title), Lower(searchTerm)) &&
              (selectedCategory == "All" || e.category == selectedCategory)
    ensures forall e :: multiset(r)[e] == if Matches(searchTerm, selectedCategory)(e) then multiset(events)[e] else 0
    ensures Seqs.IsSubsequence(r, events)
  {
    Seqs.FilterMultiset(events, Matches(searchTerm, selectedCategory));
    Seqs.FilterIsSubsequence(events, Matches(searchTerm, selectedCategory));
    Seqs.Filter(events, Matches(searchTerm, selectedCategory))
  }

  /** The home page shows "No events found." exactly when no event matches. */
  predicate ShowsNoEventsFound(events: seq<Event>, searchTerm: string, selectedCategory: string) {
    |FilteredEvents(events, searchTerm, selectedCategory)| == 0
  }

  /** `userEvents` of the my-events page: the events created through `addEvent`. */
  function UserEvents(events: seq<Event>): (r: seq<Event>)
    ensures forall e :: e in r <==> e in events && e.isUserCreated
    ensures forall e :: multiset(r)[e] == if e.isUserCreated then multiset(events)[e] else 0
    ensures Seqs.IsSubsequence(r, events)
  {
    Seqs.FilterMultiset(events, (e: Event) => e.isUserCreated);
    Seqs.FilterIsSubsequence(events, (e: Event) => e.isUserCreated);
    Seqs.Filter(events, (e: Event) => e.isUserCreated)
  }

  /** The my-events page shows "No events created yet." exactly when no event is user-created. */
  predicate ShowsNoEventsCreated(events: seq<Event>) {
    |UserEvents(events)| == 0
  }

  // ---------------------------------------------------------------------------
  // Properties of the home page's search

  /** Lower-casing twice is lower-casing once. */
  lemma LowerIdempotent(s: string)
    ensures Lower(Lower(s)) == Lower(s)
  {
  }

  /** Every string includes the empty string. */
  lemma IncludesEmpty(s: string)
    ensures Includes(s, "")
  {
    assert OccursAt(s, "", 0);
  }

  /** The empty search with category "All" shows the whole list. */
  lemma EmptySearchShowsAll(events: seq<Event>)
    ensures FilteredEvents(events, "", "All") == events
  {
    forall e | e in events ensures Matches("", "All")(e) {
      IncludesEmpty(Lower(e.title));
    }
    Seqs.FilterKeepsAll(events, Matches("", "All"));
  }

  /** Two search terms that lower-case alike give the same result, so the case of the term never matters. */
  lemma SearchIgnoresCase(events: seq<Event>, term1: string, term2: string, category: string)
    requires Lower(term1) == Lower(term2)
    ensures FilteredEvents(events, term1, category) == FilteredEvents(events, term2, category)
  {
    Seqs.FilterCongruent(events, Matches(term1, category), Matches(term2, category));
  }

  /** Searching for the lower-cased term gives the same result as the term as typed. */
  lemma SearchLowerCasedTerm(events: seq<Event>, term: string, category: string)
    ensures FilteredEvents(events, Lower(term), category) == FilteredEvents(events, term, category)
  {
    LowerIdempotent(term);
    SearchIgnoresCase(events, Lower(term), term, category);
  }

  /** "No events found." appears exactly when no event passes both tests. */
  lemma NoEventsFoundIff(events: seq<Event>, searchTerm: string, selectedCategory: string)
    ensures ShowsNoEventsFound(events, searchTerm, selectedCategory) <==>
              forall e :: e in events ==> !Matches(searchTerm, selectedCategory)(e)
  {
    var r := FilteredEvents(events, searchTerm, selectedCategory);
    if r != [] {
      assert r[0] in r;
    }
  }

  // ---------------------------------------------------------------------------
  // Properties of the my-events page

  /** An event added through `addEvent` shows up on the my-events page, after the ones already there. */
  lemma AddedEventShows(events: seq<Event>, d: UseEvents.Draft, freshId: string)
    ensures UserEvents(events + [UseEvents.NewEvent(d, freshId)]) == UserEvents(events) + [UseEvents.NewEvent(d, freshId)]
  {
    var e := UseEvents.NewEvent(d, freshId);
    var created := (x: Event) => x.isUserCreated;
    Seqs.FilterConcat(events, [e], created);
    assert Seqs.Filter([e], created) == [e] by {
      assert [e][1..] == [];
    }
  }

  /** The three seeded mock events never show on the my-events page. */
  lemma MockEventsNeverShow(id1: string, id2: string, id3: string)
    ensures UserEvents(UseEvents.MockEvents(id1, id2, id3)) == []
    ensures ShowsNoEventsCreated(UseEvents.MockEvents(id1, id2, id3))
  {
    var r := UserEvents(UseEvents.MockEvents(id1, id2, id3));
    assert forall e :: e !in r;
  }

  /** "No events created yet." appears exactly when no event is user-created. */
  lemma NoEventsCreatedIff(events: seq<Event>)
    ensures ShowsNoEventsCreated(events) <==> forall e :: e in events ==> !e.isUserCreated
  {
    var r := UserEvents(events);
    if r != [] {
      assert r[0] in r;
    }
  }

  /** The my-events page's dialog state. */
  class MyEventsPage {
    var editingEvent: Option<Event>

    constructor ()
      ensures editingEvent == None && !EditDialogOpen()
    {
      editingEvent := None;
    }

    /** The edit dialog is rendered exactly when an event is being edited. */
    predicate EditDialogOpen()
      reads this
    {
      editingEvent.Some?
    }

    /** The Edit button under an event. */
    method Edit(e: Event)
      modifies this
      ensures editingEvent == Some(e) && EditDialogOpen()
    {
      editingEvent := Some(e);
    }

    /** The dialog's close callback. */
    method Close()
      modifies this
      ensures editingEvent == None && !EditDialogOpen()
    {
      editingEvent := None;
    }
  }
}

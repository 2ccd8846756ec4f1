/**
 * The browser-local event hook: a list of events kept in component state and
 * mirrored to local storage after every change, seeded with three mock events
 * when storage is empty. Ids come from `uuidv4`, which the model takes as
 * parameters.
 */
module UseEvents {
  import opened Wrappers
  import opened Events

  /** The fields a caller supplies to `addEvent` (an event without id, `isUserCreated` and `rsvpCount`). */
  datatype Draft = Draft(
    userId: Option<string>,
    title: string,
    description: string,
    date: string,
    location: string,
    category: string)

  /** The event `addEvent` builds from a draft and a fresh id. */
  function NewEvent(d: Draft, id: string): (e: Event)
    ensures e.id == id && e.isUserCreated && e.rsvpCount == 0
    ensures e.title == d.title && e.description == d.description && e.date == d.date
    ensures e.location == d.location && e.category == d.category && e.userId == d.userId
  {
    Event(id, d.userId, d.title, d.description, d.date, d.location, d.category, true, 0)
  }

  /** The three mock events written when storage holds nothing. */
  function MockEvents(id1: string, id2: string, id3: string): (s: seq<Event>)
    ensures |s| == 3
    ensures forall e :: e in s ==> !e.isUserCreated && e.rsvpCount == 0 && e.userId.None?
  {
    [ Event(id1, None, "Tech Conference 2025", "Annual tech gathering.", "2025-10-01",
            "New York", "Conference", false, 0),
      Event(id2, None, "AI Workshop", "Hands-on AI session.", "2025-09-15",
            "San Francisco", "Workshop", false, 0),
      Event(id3, None, "Developer Meetup", "Casual meetup for devs.", "2025-11-05",
            "Austin", "Meetup", false, 0) ]
  }

  class LocalEvents {
    var events: seq<Event>
    /** The copy in local storage under "events" (absent until something is written). */
    ghost var persisted: Option<seq<Event>>

    /** The hook's first render: an empty list; storage is whatever the browser holds. */
    constructor (stored: Option<seq<Event>>)
      ensures events == [] && persisted == stored
    {
      events := [];
      persisted := stored;
    }

    /** Whether the persisted copy matches the list (true after every operation below). */
    ghost predicate InSync()
      reads this
    {
      persisted == Some(events)
    }

    /**
     * The mount effect: load the stored list if there is one, otherwise use
     * the three mock events and store them.
     */
    method Load(stored: Option<seq<Event>>, id1: string, id2: string, id3: string)
      requires stored == persisted
      modifies this
      ensures stored.Some? ==> events == stored.value && persisted == old(persisted)
      ensures stored.None? ==> events == MockEvents(id1, id2, id3)
      ensures InSync()
    {
      if stored.Some? {
        events := stored.value;
      } else {
        var mock := MockEvents(id1, id2, id3);
        events := mock;
        persisted := Some(mock);
      }
    }

    /** `addEvent`: one new user-created event with no RSVPs, appended after the existing ones. */
    method AddEvent(d: Draft, freshId: string)
      modifies this
      ensures events == old(events) + [NewEvent(d, freshId)]
      ensures InSync()
    {
      var e := NewEvent(d, freshId);
      var updated := events + [e];
      events := updated;
      persisted := Some(updated);
    }

    /** `updateEvent`: the events with the updated event's id are replaced by it; the rest stay. */
    method UpdateEvent(updatedEvent: Event)
      modifies this
      ensures events == ReplaceById(old(events), updatedEvent.id, updatedEvent)
      ensures InSync()
    {
      var updated := ReplaceById(events, updatedEvent.id, updatedEvent);
      events := updated;
      persisted := Some(updated);
    }

    /** `deleteEvent`: the events with that id are removed; the rest keep their order. */
    method DeleteEvent(id: string)
      modifies this
      ensures events == RemoveById(old(events), id)
      ensures InSync()
    {
      var updated := RemoveById(events, id);
      events := updated;
      persisted := Some(updated);
    }

    /** `rsvpEvent`: one more RSVP on the events with that id; no permission check, no duplicate guard. */
    method RsvpEvent(id: string)
      modifies this
      ensures events == IncrementRsvp(old(events), id)
      ensures InSync()
    {
      var updated := IncrementRsvp(events, id);
      events := updated;
      persisted := Some(updated);
    }
  }

  // ---------------------------------------------------------------------------
  // What the operations keep

  /**
   * Starting from counters that are all non-negative, every operation keeps
   * them so; an update does when the event it writes has a non-negative counter.
   */
  lemma CountsStayNonNegative(s: seq<Event>, d: Draft, freshId: string, x: Event, id: string)
    requires CountsNonNegative(s) && x.rsvpCount >= 0
    ensures CountsNonNegative(s + [NewEvent(d, freshId)])
    ensures CountsNonNegative(ReplaceById(s, x.id, x))
    ensures CountsNonNegative(RemoveById(s, id))
    ensures CountsNonNegative(IncrementRsvp(s, id))
  {
    RsvpMonotone(s, id);
    var r := ReplaceById(s, x.id, x);
    forall e | e in r ensures e.rsvpCount >= 0 {
      var i :| 0 <= i < |r| && r[i] == e;
      assert s[i] in s;
    }
  }
}

/**
 * The events context provider: the list of events and a loading flag, filled
 * from the server and updated after an RSVP or a delete. Server answers are
 * parameters: an `Option` whose `None` is a failed request.
 */
module EventsProvider {
  import opened Wrappers
  import opened Events

  class Provider {
    var events: seq<Event>
    var loading: bool

    constructor ()
      ensures events == [] && !loading
    {
      events, loading := [], false;
    }

    /**
     * `fetchEvents(fetchUserEvents)`: ask the user endpoint or the general one;
     * on success the list is replaced wholesale, on failure it stays; either
     * way loading ends false.
     */
    method FetchEvents(fetchUserEvents: bool, api: Endpoint -> Option<seq<Event>>) returns (asked: Endpoint)
      modifies this
      ensures asked == if fetchUserEvents then UserEventsApi else AllEventsApi
      ensures events == if api(asked).Some? then api(asked).value else old(events)
      ensures !loading
    {
      loading := true;
      asked := if fetchUserEvents then UserEventsApi else AllEventsApi;
      var response := api(asked);
      if response.Some? {
        events := response.value;
      }
      loading := false;
    }

    /** `rsvpEvent(id)`: on success the events with that id become the returned event; on failure nothing changes. */
    method RsvpEvent(id: string, response: Option<Event>)
      modifies this`events
      ensures events == if response.Some? then ReplaceById(old(events), id, response.value) else old(events)
    {
      if response.Some? {
        events := ReplaceById(events, id, response.value);
      }
    }

    /** `deleteEvent(id)`: on success the events with that id are gone, the rest in order; on failure nothing changes. */
    method DeleteEvent(id: string, deleted: bool)
      modifies this`events
      ensures events == if deleted then RemoveById(old(events), id) else old(events)
    {
      if deleted {
        events := RemoveById(events, id);
      }
    }
  }

  /**
   * When the server answers an RSVP with the event it stored under that id
   * (same id, counter one higher), the provider's list ends up exactly as the
   * local increment would leave it.
   */
  lemma ServerRsvpMatchesIncrement(s: seq<Event>, i: nat)
    requires i < |s|
    requires forall j :: 0 <= j < |s| && s[j].id == s[i].id ==> j == i
    ensures ReplaceById(s, s[i].id, Attend(s[i])) == IncrementRsvp(s, s[i].id)
  {
  }
}

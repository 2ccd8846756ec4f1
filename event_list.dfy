/**
 * The event list component: which buttons it offers for an event, given the
 * signed-in user, the admin flag and the permission check of the auth hook,
 * and how it updates its list after a delete or an RSVP.
 *
 * The auth hook's `isAdmin` and `hasPermission` are not part of this model:
 * they are inputs, the second as the set of permission names for which it
 * answers true.
 */
module EventList {
  import opened Wrappers
  import opened Events
  import Seed

  /** What the auth hook tells the component: the user's id if signed in, `isAdmin`, and `hasPermission`. */
  datatype Viewer = Viewer(user: Option<string>, isAdmin: bool, granted: set<string>)

  /** `hasPermission(name)`. */
  predicate HasPermission(v: Viewer, name: string) {
    name in v.granted
  }

  /** `isOwnEvent(event)`: a user is signed in and owns the event. */
  predicate IsOwnEvent(v: Viewer, e: Event) {
    v.user.Some? && e.userId == Some(v.user.value)
  }

  /** `canEditAll`. */
  predicate CanEditAll(v: Viewer) {
    v.isAdmin || HasPermission(v, "event.update.all")
  }

  /** `canDeleteAll`. */
  predicate CanDeleteAll(v: Viewer) {
    v.isAdmin || HasPermission(v, "event.delete.all")
  }

  /** The condition that shows the Edit button for `e`. */
  predicate ShowsEdit(v: Viewer, e: Event) {
    CanEditAll(v) || (IsOwnEvent(v, e) && HasPermission(v, "event.update.own"))
  }

  /** The condition that shows the Delete button for `e`. */
  predicate ShowsDelete(v: Viewer, e: Event) {
    CanDeleteAll(v) || (IsOwnEvent(v, e) && HasPermission(v, "event.delete.own"))
  }

  /** The condition that shows the RSVP button for `e`. */
  predicate ShowsRsvp(v: Viewer, e: Event) {
    v.user.Some? && HasPermission(v, "event.rsvp")
  }

  /** The `disabled` condition of the Create Event button. */
  predicate CreateDisabled(v: Viewer, loading: bool) {
    v.user.None? || !HasPermission(v, "event.create") || loading
  }

  /**
   * The own/all scoping rule stated once for any action: allowed with the
   * action's "all" grant, or to the owner with its "own" grant.
   */
  predicate MayActOn(v: Viewer, e: Event, action: string) {
    HasPermission(v, action + ".all") || (IsOwnEvent(v, e) && HasPermission(v, action + ".own"))
  }

  // ---------------------------------------------------------------------------
  // What the buttons mean

  /** Edit and Delete follow the own/all rule, with the admin flag standing in for the "all" grant. */
  lemma ButtonsFollowScopeRule(v: Viewer, e: Event)
    ensures ShowsEdit(v, e) <==> v.isAdmin || MayActOn(v, e, "event.update")
    ensures ShowsDelete(v, e) <==> v.isAdmin || MayActOn(v, e, "event.delete")
  {
    assert "event.update" + ".all" == "event.update.all";
    assert "event.update" + ".own" == "event.update.own";
    assert "event.delete" + ".all" == "event.delete.all";
    assert "event.delete" + ".own" == "event.delete.own";
  }

  /** Ownership is checked against the signed-in user's id; nobody owns anything when signed out. */
  lemma OwnershipNeedsUser(v: Viewer, e: Event)
    ensures IsOwnEvent(v, e) <==> exists id :: v.user == Some(id) && e.userId == Some(id)
    ensures v.user.None? ==> !ShowsRsvp(v, e) && CreateDisabled(v, false)
  {
    if IsOwnEvent(v, e) {
      assert v.user == Some(v.user.value);
    }
  }

  /** A non-admin who does not own the event and holds no "all" grant is offered neither Edit nor Delete. */
  lemma NonOwnerWithoutAllIsDenied(v: Viewer, e: Event)
    requires !v.isAdmin && !IsOwnEvent(v, e)
    requires !HasPermission(v, "event.update.all") && !HasPermission(v, "event.delete.all")
    ensures !ShowsEdit(v, e) && !ShowsDelete(v, e)
  {
  }

  /** Whether RSVP is offered does not depend on the event, so ownership plays no part in it. */
  lemma RsvpIgnoresOwnership(v: Viewer, e1: Event, e2: Event)
    ensures ShowsRsvp(v, e1) == ShowsRsvp(v, e2)
  {
  }

  /**
   * A user whose permissions are those the seed gives the "user" role, not an
   * admin, is offered Edit and Delete exactly on the events they own.
   */
  lemma SeededUserActsOnOwnOnly(v: Viewer, e: Event)
    requires !v.isAdmin
    requires v.granted == set n | n in Seed.UserRoleNames
    ensures ShowsEdit(v, e) <==> IsOwnEvent(v, e)
    ensures ShowsDelete(v, e) <==> IsOwnEvent(v, e)
    ensures ShowsRsvp(v, e) <==> v.user.Some?
  {
    assert "event.update.own" in Seed.UserRoleNames;
    assert "event.delete.own" in Seed.UserRoleNames;
    assert "event.rsvp" in Seed.UserRoleNames;
    assert "event.update.all" !in Seed.UserRoleNames;
    assert "event.delete.all" !in Seed.UserRoleNames;
  }

  // ---------------------------------------------------------------------------
  // The component's state

  class EventListView {
    var events: seq<Event>
    var loading: bool

    constructor ()
      ensures events == [] && !loading
    {
      events, loading := [], false;
    }

    /**
     * The fetch effect: a signed-in user's events, or all events when signed
     * out; the list is replaced on success and kept on failure; loading ends false.
     */
    method FetchEvents(v: Viewer, api: Endpoint -> Option<seq<Event>>) returns (called: Endpoint)
      modifies this
      ensures called == if v.user.Some? then UserEventsApi else AllEventsApi
      ensures events == if api(called).Some? then api(called).value else old(events)
      ensures !loading
    {
      loading := true;
      called := if v.user.Some? then UserEventsApi else AllEventsApi;
      var response := api(called);
      if response.Some? {
        events := response.value;
      }
      loading := false;
    }

    /** `handleDelete`: on success every event with that id is gone, the rest in order; on failure nothing changes. */
    method HandleDelete(id: string, deleted: bool)
      modifies this`events
      ensures events == if deleted then RemoveById(old(events), id) else old(events)
    {
      if deleted {
        events := RemoveById(events, id);
      }
    }

    /** `handleRsvp`: on success the events with that id become the server's event; on failure nothing changes. */
    method HandleRsvp(id: string, response: Option<Event>)
      modifies this`events
      ensures events == if response.Some? then ReplaceById(old(events), id, response.value) else old(events)
    {
      if response.Some? {
        events := ReplaceById(events, id, response.value);
      }
    }
  }
}

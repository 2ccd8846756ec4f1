/**
 * The client's event record and the three list updates that the hooks and
 * components apply to it: remove by id (`filter`), replace by id (`map`) and
 * RSVP increment by id (`map` with a spread).
 */
module Events {
  import opened Wrappers
  import Seqs

  /**
   * An event as the client sees it. `userId` is the owner (absent on the
   * locally seeded mock events); `isUserCreated` marks events added through
   * the local store's `addEvent`.
   */
  datatype Event = Event(
    id: string,
    userId: Option<string>,
    title: string,
    description: string,
    date: string,
    location: string,
    category: string,
    isUserCreated: bool,
    rsvpCount: int)

  /** The two listing endpoints: `getUserEvents` and `getEvents`. */
  datatype Endpoint = UserEventsApi | AllEventsApi

  /** The filter callback `(e) => e.id !== id`. */
  function NotId(id: string): Event -> bool {
    (e: Event) => e.id != id
  }

  /** `events.filter((e) => e.id !== id)`. */
  function RemoveById(s: seq<Event>, id: string): (r: seq<Event>)
    ensures forall e :: e in r <==> e in s && e.id != id
    ensures forall e :: multiset(r)[e] == if e.id == id then 0 else multiset(s)[e]
    ensures Seqs.IsSubsequence(r, s)
  {
    Seqs.FilterIsSubsequence(s, NotId(id));
    Seqs.FilterMultiset(s, NotId(id));
    Seqs.Filter(s, NotId(id))
  }

  /** `events.map((e) => e.id === id ? x : e)`. */
  function ReplaceById(s: seq<Event>, id: string, x: Event): (r: seq<Event>)
    ensures |r| == |s|
    ensures forall i :: 0 <= i < |s| && s[i].id != id ==> r[i] == s[i]
    ensures forall i :: 0 <= i < |s| && s[i].id == id ==> r[i] == x
  {
    Seqs.ReplaceWhere(s, (e: Event) => e.id, id, x)
  }

  /** The same event with one more RSVP and every other field unchanged. */
  function Attend(e: Event): Event {
    e.(rsvpCount := e.rsvpCount + 1)
  }

  /** `events.map((e) => e.id === id ? { ...e, rsvpCount: e.rsvpCount + 1 } : e)`. */
  function IncrementRsvp(s: seq<Event>, id: string): (r: seq<Event>)
    ensures |r| == |s|
    ensures forall i :: 0 <= i < |s| && s[i].id != id ==> r[i] == s[i]
    ensures forall i :: 0 <= i < |s| && s[i].id == id ==>
              r[i] == s[i].(rsvpCount := s[i].rsvpCount + 1)
  {
    seq(|s|, i requires 0 <= i < |s| => if s[i].id == id then Attend(s[i]) else s[i])
  }

  /** Whether some event in the list carries `id`. */
  predicate HasId(s: seq<Event>, id: string) {
    exists e :: e in s && e.id == id
  }

  /** Every RSVP counter in the list is non-negative. */
  predicate CountsNonNegative(s: seq<Event>) {
    forall e :: e in s ==> e.rsvpCount >= 0
  }

  /** `t` has the events of `s` at the same positions with counters at least as large. */
  predicate CountsGrew(s: seq<Event>, t: seq<Event>) {
    |s| == |t| && forall i :: 0 <= i < |s| ==> s[i].id == t[i].id && s[i].rsvpCount <= t[i].rsvpCount
  }

  /** `n` successive RSVPs to the same id. */
  function RsvpRepeatedly(s: seq<Event>, id: string, n: nat): seq<Event> {
    if n == 0 then s else IncrementRsvp(RsvpRepeatedly(s, id, n - 1), id)
  }

  // ---------------------------------------------------------------------------
  // Properties of the list updates

  /** Replacing or RSVPing an id that is not in the list changes nothing. */
  lemma AbsentIdIsNoOp(s: seq<Event>, id: string, x: Event)
    requires !HasId(s, id)
    ensures ReplaceById(s, id, x) == s
    ensures IncrementRsvp(s, id) == s
    ensures RemoveById(s, id) == s
  {
    assert forall i :: 0 <= i < |s| ==> s[i] in s;
    Seqs.FilterKeepsAll(s, NotId(id));
  }

  /** After a replace, the only events carrying `x.id` are copies of `x`. */
  lemma ReplaceLeavesOnlyNew(s: seq<Event>, x: Event)
    ensures forall e :: e in ReplaceById(s, x.id, x) && e.id == x.id ==> e == x
    ensures HasId(s, x.id) ==> x in ReplaceById(s, x.id, x)
  {
    var r := ReplaceById(s, x.id, x);
    forall e | e in r && e.id == x.id ensures e == x {
      var i :| 0 <= i < |r| && r[i] == e;
    }
    if HasId(s, x.id) {
      var e :| e in s && e.id == x.id;
      var i :| 0 <= i < |s| && s[i] == e;
      assert r[i] == x;
    }
  }

  /** Deleting after replacing the same id is the same as deleting. */
  lemma {:induction false} RemoveAfterReplace(s: seq<Event>, x: Event)
    ensures RemoveById(ReplaceById(s, x.id, x), x.id) == RemoveById(s, x.id)
  {
    if s != [] {
      var r := ReplaceById(s, x.id, x);
      assert s == [s[0]] + s[1..];
      assert r == [r[0]] + r[1..];
      assert r[1..] == ReplaceById(s[1..], x.id, x);
      RemoveAfterReplace(s[1..], x);
      Seqs.FilterConcat([s[0]], s[1..], NotId(x.id));
      Seqs.FilterConcat([r[0]], r[1..], NotId(x.id));
    }
  }

  /** `n` RSVPs to the same id add exactly `n` to each matching counter and touch nothing else. */
  lemma {:induction false} RsvpAddsExactly(s: seq<Event>, id: string, n: nat)
    ensures |RsvpRepeatedly(s, id, n)| == |s|
    ensures forall i :: 0 <= i < |s| ==>
              RsvpRepeatedly(s, id, n)[i] ==
                if s[i].id == id then s[i].(rsvpCount := s[i].rsvpCount + n) else s[i]
  {
    if n > 0 {
      RsvpAddsExactly(s, id, n - 1);
    }
  }

  /** An RSVP keeps the counters non-negative and never lowers any of them. */
  lemma RsvpMonotone(s: seq<Event>, id: string)
    ensures CountsGrew(s, IncrementRsvp(s, id))
    ensures CountsNonNegative(s) ==> CountsNonNegative(IncrementRsvp(s, id))
  {
    var r := IncrementRsvp(s, id);
    if CountsNonNegative(s) {
      forall e | e in r ensures e.rsvpCount >= 0 {
        var i :| 0 <= i < |r| && r[i] == e;
        assert s[i] in s;
      }
    }
  }
}

// event-service: models.go, event_handlers.go and rsvp_handlers.go.  Both
// handler files work on the one package-level `events` map, so one class holds
// it.  Instants are integers (time.Time compared by Before/Equal/After);
// X-User-ID, uuid.New() and time.Now() are parameters.

module EventService {
  import opened Base
  import opened Http

  /** models.go's Location; the float Coordinates are not part of this model. */
  datatype Location = Location(kind: string, name: string, address: string, url: string)

  /** The RSVPType values the package declares; the handlers never check against them. */
  const RsvpGoing := "going"
  const RsvpNotGoing := "not_going"
  const RsvpMaybe := "maybe"

  datatype RsvpStatus = RsvpStatus(status: string, timestamp: int, userId: string)

  datatype Event = Event(
    id: string,
    title: string,
    description: string,
    creatorId: string,
    startTime: int,
    endTime: int,
    location: Location,
    rsvps: map<string, RsvpStatus>,
    createdAt: int,
    updatedAt: int)

  datatype CreateEventRequest = CreateEventRequest(
    title: string,
    description: string,
    startTime: int,
    endTime: int,
    location: Location)

  /** Every field is optional: an absent one leaves the stored value alone. */
  datatype UpdateEventRequest = UpdateEventRequest(
    title: Option<string>,
    description: Option<string>,
    startTime: Option<int>,
    endTime: Option<int>,
    location: Option<Location>)

  datatype EventList = EventList(events: seq<Event>, total: int)

  /** The body of GET /events/:id/rsvps. */
  datatype RsvpSummary = RsvpSummary(eventId: string, rsvps: seq<RsvpStatus>, counts: map<string, int>, total: int)

  const EndBeforeStart := "End time must be after start time"
  const UserIdRequired := "User ID required"
  const EventNotFound := "Event not found"
  const OnlyCreatorUpdates := "Only event creator can update the event"
  const OnlyCreatorDeletes := "Only event creator can delete the event"
  const PastEvent := "Cannot RSVP to a past event"
  const NoRsvp := "No RSVP found for this user"

  function Pick<T>(o: Option<T>, current: T): T
  {
    if o.Some? then o.value else current
  }

  /** The users in `dom` whose RSVP in `m` has status `s`. */
  ghost function UsersWith(m: map<string, RsvpStatus>, dom: set<string>, s: string): set<string>
  {
    set u | u in dom && u in m && m[u].status == s
  }

  /** The statuses of the RSVPs in `m` made by users in `dom`. */
  ghost function StatusesIn(m: map<string, RsvpStatus>, dom: set<string>): set<string>
  {
    set u | u in dom && u in m :: m[u].status
  }

  /** Adding one user to the counted domain adds one to its status's count and nothing elsewhere. */
  lemma CountStep(m: map<string, RsvpStatus>, dom: set<string>, u: string)
    requires u in m && u !in dom
    ensures UsersWith(m, dom + {u}, m[u].status) == UsersWith(m, dom, m[u].status) + {u}
    ensures |UsersWith(m, dom + {u}, m[u].status)| == |UsersWith(m, dom, m[u].status)| + 1
    ensures forall t :: t != m[u].status ==> UsersWith(m, dom + {u}, t) == UsersWith(m, dom, t)
    ensures StatusesIn(m, dom + {u}) == StatusesIn(m, dom) + {m[u].status}
  {
  }

  /** A status that occurs in no RSVP of `dom` has no users. */
  lemma AbsentStatus(m: map<string, RsvpStatus>, dom: set<string>, s: string)
    requires s !in StatusesIn(m, dom)
    ensures UsersWith(m, dom, s) == {}
  {
    forall u | u in dom && u in m
      ensures m[u].status != s
    {
      assert m[u].status in StatusesIn(m, dom);
    }
  }

  ghost function SumValues(c: map<string, int>): int
    decreases |c|
  {
    if c == map[] then 0
    else
      var k :| k in c;
      assert |c - {k}| < |c| by { assert c.Keys - {k} < c.Keys; }
      c[k] + SumValues(c - {k})
  }

  lemma {:induction false} SumRemove(c: map<string, int>, k: string)
    requires k in c
    ensures SumValues(c) == c[k] + SumValues(c - {k})
    decreases |c|
  {
    var j :| j in c && SumValues(c) == c[j] + SumValues(c - {j});
    if j != k {
      assert |c - {j}| < |c| by { assert c.Keys - {j} < c.Keys; }
      assert |c - {k}| < |c| by { assert c.Keys - {k} < c.Keys; }
      SumRemove(c - {j}, k);
      SumRemove(c - {k}, j);
      assert c - {j} - {k} == c - {k} - {j};
    }
  }

  lemma SumUpdate(c: map<string, int>, k: string, v: int)
    ensures SumValues(c[k := v]) == SumValues(c) - (if k in c then c[k] else 0) + v
  {
    SumRemove(c[k := v], k);
    assert c[k := v] - {k} == c - {k};
    if k in c {
      SumRemove(c, k);
    } else {
      assert c - {k} == c;
    }
  }

  class EventStore {
    var events: map<string, Event>

    /** Entries sit under their own id, every stored event ends after it starts,
        and each RSVP sits under the id of the user who made it. */
    ghost predicate Valid()
      reads this
    {
      forall k :: k in events ==>
        && events[k].id == k
        && events[k].startTime < events[k].endTime
        && (forall u :: u in events[k].rsvps ==> events[k].rsvps[u].userId == u)
    }

    constructor ()
      ensures Valid() && events == map[]
    {
      events := map[];
    }

    method CreateEvent(req: CreateEventRequest, userHeader: string, newId: string, now: int) returns (r: Outcome<Event>)
      requires Valid()
      modifies this
      ensures Valid()
      ensures req.endTime <= req.startTime ==> r == Fail(StatusBadRequest, EndBeforeStart) && events == old(events)
      ensures req.startTime < req.endTime && userHeader == "" ==> r == Fail(StatusUnauthorized, UserIdRequired) && events == old(events)
      ensures r.Ok? <==> req.startTime < req.endTime && userHeader != ""
      ensures r.Ok? ==>
        && r == Ok(StatusCreated, Event(newId, req.title, req.description, userHeader, req.startTime, req.endTime,
                                        req.location, map[], now, now))
        && events == old(events)[newId := r.value]
        && (newId !in old(events) ==> |events| == |old(events)| + 1)
    {
      if req.endTime < req.startTime || req.endTime == req.startTime {
        return Fail(StatusBadRequest, EndBeforeStart);
      }
      if userHeader == "" {
        return Fail(StatusUnauthorized, UserIdRequired);
      }
      var event := Event(newId, req.title, req.description, userHeader, req.startTime, req.endTime,
                         req.location, map[], now, now);
      events := events[newId := event];
      r := Ok(StatusCreated, event);
    }

    method GetEvents() returns (r: EventList, ghost ids: seq<string>)
      ensures r.total == |r.events| == |events| == |ids| && Distinct(ids)
      ensures forall i :: 0 <= i < |ids| ==> ids[i] in events && r.events[i] == events[ids[i]]
      ensures forall id :: id in events ==> id in ids
      ensures forall e :: e in r.events <==> e in events.Values
    {
      var list;
      list, ids := CollectValues(events, _ => true);
      r := EventList(list, |list|);
    }

    method GetEvent(id: string) returns (r: Outcome<Event>)
      ensures id in events ==> r == Ok(StatusOK, events[id])
      ensures id !in events ==> r == Fail(StatusNotFound, EventNotFound)
    {
      if id !in events {
        return Fail(StatusNotFound, EventNotFound);
      }
      r := Ok(StatusOK, events[id]);
    }

    method UpdateEvent(id: string, req: UpdateEventRequest, userHeader: string, now: int) returns (r: Outcome<Event>)
      requires Valid()
      modifies this
      ensures Valid()
      ensures userHeader == "" ==> r == Fail(StatusUnauthorized, UserIdRequired)
      ensures userHeader != "" && id !in old(events) ==> r == Fail(StatusNotFound, EventNotFound)
      ensures userHeader != "" && id in old(events) && old(events)[id].creatorId != userHeader ==>
        r == Fail(StatusForbidden, OnlyCreatorUpdates)
      ensures r.Fail? ==> events == old(events)
      ensures userHeader != "" && id in old(events) && old(events)[id].creatorId == userHeader ==>
        var e := old(events)[id];
        var start, end := Pick(req.startTime, e.startTime), Pick(req.endTime, e.endTime);
        if end <= start then
          r == Fail(StatusBadRequest, EndBeforeStart)
        else
          && r.Ok? && r.status == StatusOK
          && r.value == Event(e.id, Pick(req.title, e.title), Pick(req.description, e.description), e.creatorId,
                              start, end, Pick(req.location, e.location), e.rsvps, e.createdAt, now)
          && events == old(events)[id := r.value]
    {
      if userHeader == "" {
        return Fail(StatusUnauthorized, UserIdRequired);
      }
      if id !in events {
        return Fail(StatusNotFound, EventNotFound);
      }
      var event := events[id];
      if event.creatorId != userHeader {
        return Fail(StatusForbidden, OnlyCreatorUpdates);
      }
      if req.title.Some? {
        event := event.(title := req.title.value);
      }
      if req.description.Some? {
        event := event.(description := req.description.value);
      }
      if req.startTime.Some? {
        event := event.(startTime := req.startTime.value);
      }
      if req.endTime.Some? {
        event := event.(endTime := req.endTime.value);
      }
      if req.location.Some? {
        event := event.(location := req.location.value);
      }
      if event.endTime < event.startTime || event.endTime == event.startTime {
        return Fail(StatusBadRequest, EndBeforeStart);
      }
      event := event.(updatedAt := now);
      events := events[id := event];
      r := Ok(StatusOK, event);
    }

    method DeleteEvent(id: string, userHeader: string) returns (r: Outcome<string>)
      requires Valid()
      modifies this
      ensures Valid()
      ensures userHeader == "" ==> r == Fail(StatusUnauthorized, UserIdRequired)
      ensures userHeader != "" && id !in old(events) ==> r == Fail(StatusNotFound, EventNotFound)
      ensures userHeader != "" && id in old(events) && old(events)[id].creatorId != userHeader ==>
        r == Fail(StatusForbidden, OnlyCreatorDeletes)
      ensures r.Ok? <==> userHeader != "" && id in old(events) && old(events)[id].creatorId == userHeader
      ensures r.Ok? ==> r.status == StatusOK && events == old(events) - {id}
      ensures r.Fail? ==> events == old(events)
    {
      if userHeader == "" {
        return Fail(StatusUnauthorized, UserIdRequired);
      }
      if id !in events {
        return Fail(StatusNotFound, EventNotFound);
      }
      if events[id].creatorId != userHeader {
        return Fail(StatusForbidden, OnlyCreatorDeletes);
      }
      events := events - {id};
      r := Ok(StatusOK, "Event deleted successfully");
    }

    /** POST /events/:id/rsvp: insert or overwrite the caller's RSVP, status stored as given. */
    method RsvpToEvent(eventId: string, status: string, userHeader: string, now: int) returns (r: Outcome<RsvpStatus>)
      requires Valid()
      modifies this
      ensures Valid()
      ensures userHeader == "" ==> r == Fail(StatusUnauthorized, UserIdRequired)
      ensures userHeader != "" && eventId !in old(events) ==> r == Fail(StatusNotFound, EventNotFound)
      ensures userHeader != "" && eventId in old(events) && now > old(events)[eventId].endTime ==>
        r == Fail(StatusBadRequest, PastEvent)
      ensures r.Ok? <==> userHeader != "" && eventId in old(events) && now <= old(events)[eventId].endTime
      ensures r.Fail? ==> events == old(events)
      ensures r.Ok? ==>
        var e := old(events)[eventId];
        && r == Ok(StatusOK, RsvpStatus(status, now, userHeader))
        && events == old(events)[eventId := e.(rsvps := e.rsvps[userHeader := r.value], updatedAt := now)]
    {
      if userHeader == "" {
        return Fail(StatusUnauthorized, UserIdRequired);
      }
      if eventId !in events {
        return Fail(StatusNotFound, EventNotFound);
      }
      var event := events[eventId];
      if now > event.endTime {
        return Fail(StatusBadRequest, PastEvent);
      }
      var rsvp := RsvpStatus(status, now, userHeader);
      event := event.(rsvps := event.rsvps[userHeader := rsvp], updatedAt := now);
      events := events[eventId := event];
      r := Ok(StatusOK, rsvp);
    }

    /** GET /events/:id/rsvps: the RSVPs as a list, a count per status, and the total. */
    method GetEventRsvps(eventId: string) returns (r: Outcome<RsvpSummary>, ghost users: seq<string>)
      ensures eventId !in events ==> r == Fail(StatusNotFound, EventNotFound)
      ensures eventId in events ==>
        var m := events[eventId].rsvps;
        && r.Ok? && r.status == StatusOK && r.value.eventId == eventId
        && r.value.total == |r.value.rsvps| == |m| == |users| && Distinct(users)
        && (forall i :: 0 <= i < |users| ==> users[i] in m && r.value.rsvps[i] == m[users[i]])
        && (forall u :: u in m ==> u in users)
        && r.value.counts.Keys == StatusesIn(m, m.Keys)
        && (forall s :: s in r.value.counts ==> r.value.counts[s] == |UsersWith(m, m.Keys, s)|)
        && SumValues(r.value.counts) == r.value.total
    {
      if eventId !in events {
        return Fail(StatusNotFound, EventNotFound), [];
      }
      var m := events[eventId].rsvps;
      var list;
      list, users := CollectValues(m, _ => true);
      var counts := CountByStatus(m);
      r := Ok(StatusOK, RsvpSummary(eventId, list, counts, |list|));
    }

    /** DELETE /events/:id/rsvp: drop the caller's RSVP, if there is one. */
    method RemoveRsvp(eventId: string, userHeader: string, now: int) returns (r: Outcome<string>)
      requires Valid()
      modifies this
      ensures Valid()
      ensures userHeader == "" ==> r == Fail(StatusUnauthorized, UserIdRequired)
      ensures userHeader != "" && eventId !in old(events) ==> r == Fail(StatusNotFound, EventNotFound)
      ensures userHeader != "" && eventId in old(events) && userHeader !in old(events)[eventId].rsvps ==>
        r == Fail(StatusNotFound, NoRsvp)
      ensures r.Ok? <==> userHeader != "" && eventId in old(events) && userHeader in old(events)[eventId].rsvps
      ensures r.Fail? ==> events == old(events)
      ensures r.Ok? ==>
        var e := old(events)[eventId];
        && r.status == StatusOK
        && events == old(events)[eventId := e.(rsvps := e.rsvps - {userHeader}, updatedAt := now)]
        && userHeader !in events[eventId].rsvps
    {
      if userHeader == "" {
        return Fail(StatusUnauthorized, UserIdRequired);
      }
      if eventId !in events {
        return Fail(StatusNotFound, EventNotFound);
      }
      var event := events[eventId];
      if userHeader !in event.rsvps {
        return Fail(StatusNotFound, NoRsvp);
      }
      event := event.(rsvps := event.rsvps - {userHeader}, updatedAt := now);
      events := events[eventId := event];
      r := Ok(StatusOK, "RSVP removed successfully");
    }
  }

  /** `counts` holds, for the RSVPs of the users in `done`, one entry per status with its number of users. */
  ghost predicate CountsFor(m: map<string, RsvpStatus>, done: set<string>, counts: map<string, int>)
  {
    && counts.Keys == StatusesIn(m, done)
    && (forall s :: s in counts ==> counts[s] == |UsersWith(m, done, s)|)
    && SumValues(counts) == |done|
  }

  lemma CountsStep(m: map<string, RsvpStatus>, done: set<string>, counts: map<string, int>, u: string, next: map<string, int>)
    requires u in m && u !in done && CountsFor(m, done, counts)
    requires next == counts[m[u].status := if m[u].status in counts then counts[m[u].status] + 1 else 1]
    ensures CountsFor(m, done + {u}, next)
  {
    var s := m[u].status;
    CountStep(m, done, u);
    var n := |UsersWith(m, done, s)|;
    assert next[s] == n + 1 by {
      if s !in counts {
        AbsentStatus(m, done, s);
      }
    }
    assert SumValues(next) == |done| + 1 by {
      SumUpdate(counts, s, n + 1);
    }
    assert next.Keys == StatusesIn(m, done + {u});
    assert forall t :: t in next ==> next[t] == |UsersWith(m, done + {u}, t)| by {
      forall t | t in next
        ensures next[t] == |UsersWith(m, done + {u}, t)|
      {
        if t != s {
          assert t in counts && next[t] == counts[t];
        }
      }
    }
  }

  /** `for _, rsvp := range m { counts[rsvp.Status]++ }`. */
  method CountByStatus(m: map<string, RsvpStatus>) returns (counts: map<string, int>)
    ensures counts.Keys == StatusesIn(m, m.Keys)
    ensures forall s :: s in counts ==> counts[s] == |UsersWith(m, m.Keys, s)|
    ensures SumValues(counts) == |m|
  {
    counts := map[];
    var rest := m.Keys;
    ghost var done: set<string> := {};
    while rest != {}
      invariant done + rest == m.Keys && done !! rest
      invariant CountsFor(m, done, counts)
      decreases rest
    {
      var u :| u in rest;
      var s := m[u].status;
      var next := counts[s := if s in counts then counts[s] + 1 else 1];
      CountsStep(m, done, counts, u, next);
      counts := next;
      rest, done := rest - {u}, done + {u};
    }
    assert done == m.Keys;
  }
}

// events-service: event.go and handlers.go.  Times arrive as text and are read
// with the layout "2006-01-02T15:04"; the CreateEventRequest body serves both
// create and update.  uuid.New() and time.Now() are parameters.

module EventsService {
  import opened Base
  import opened Http
  import opened TimeLayout

  datatype Location = Location(kind: string, address: string, url: string)

  datatype Event = Event(
    id: string,
    title: string,
    description: string,
    startTime: DateTime,
    endTime: DateTime,
    location: Location,
    rsvpEnabled: bool,
    imageUrl: string,
    category: string,
    createdBy: string,
    createdAt: int,
    updatedAt: int)

  datatype CreateEventRequest = CreateEventRequest(
    title: string,
    description: string,
    startTime: string,
    endTime: string,
    location: Location,
    rsvpEnabled: bool,
    imageUrl: string,
    category: string)

  const CreatedBySystem := "system"
  const BadStart := "Invalid start time format. Use YYYY-MM-DDTHH:MM"
  const BadEnd := "Invalid end time format. Use YYYY-MM-DDTHH:MM"
  const EndBeforeStart := "End time must be after start time"
  const EventNotFound := "Event not found"

  /** The handlers RegisterEventRoutes attaches. */
  datatype Handler = GetEventsHandler | CreateEventHandler | GetEventByIdHandler(id: string)
                   | UpdateEventHandler(id: string) | DeleteEventHandler(id: string)

  /** One path segment as a gin `:id` parameter accepts it: non-empty, no '/'. */
  predicate IsSegment(s: string)
  {
    s != "" && forall i :: 0 <= i < |s| ==> s[i] != '/'
  }

  /** `/events/:id`: the id is the non-empty last segment. */
  predicate IdPath(path: string)
  {
    |path| > 8 && path[..8] == "/events/" && IsSegment(path[8..])
  }

  /** RegisterEventRoutes: the method and path of a request select a handler, or none. */
  function EventRoute(verb: string, path: string): (h: Option<Handler>)
    ensures h == Some(GetEventsHandler) <==> verb == "GET" && path == "/events"
    ensures h == Some(CreateEventHandler) <==> verb == "POST" && path == "/events"
    ensures (h.Some? && h.value.GetEventByIdHandler?) <==> verb == "GET" && IdPath(path)
    ensures (h.Some? && h.value.UpdateEventHandler?) <==> verb == "PUT" && IdPath(path)
    ensures (h.Some? && h.value.DeleteEventHandler?) <==> verb == "DELETE" && IdPath(path)
    ensures h.Some? && (h.value.GetEventByIdHandler? || h.value.UpdateEventHandler? || h.value.DeleteEventHandler?) ==>
      IdPath(path) && h.value.id == path[8..] && "/events/" + h.value.id == path
  {
    if path == "/events" then
      if verb == "GET" then Some(GetEventsHandler)
      else if verb == "POST" then Some(CreateEventHandler)
      else None
    else if IdPath(path) then
      var id := path[8..];
      assert "/events/" + id == path;
      if verb == "GET" then Some(GetEventByIdHandler(id))
      else if verb == "PUT" then Some(UpdateEventHandler(id))
      else if verb == "DELETE" then Some(DeleteEventHandler(id))
      else None
    else None
  }

  class EventsStore {
    var events: map<string, Event>

    ghost predicate Valid()
      reads this
    {
      forall k :: k in events ==> events[k].id == k
    }

    constructor ()
      ensures Valid() && events == map[]
    {
      events := map[];
    }

    method GetEvents() returns (list: seq<Event>, ghost ids: seq<string>)
      ensures |list| == |events| == |ids| && Distinct(ids)
      ensures forall i :: 0 <= i < |ids| ==> ids[i] in events && list[i] == events[ids[i]]
      ensures forall id :: id in events ==> id in ids
      ensures forall e :: e in list <==> e in events.Values
    {
      list, ids := CollectValues(events, _ => true);
    }

    method CreateEvent(req: CreateEventRequest, newId: string, now: int) returns (r: Outcome<Event>)
      requires Valid()
      modifies this
      ensures Valid()
      ensures Parse(req.startTime).None? ==> r == Fail(StatusBadRequest, BadStart)
      ensures Parse(req.startTime).Some? && Parse(req.endTime).None? ==> r == Fail(StatusBadRequest, BadEnd)
      ensures Parse(req.startTime).Some? && Parse(req.endTime).Some? && Before(Parse(req.endTime).value, Parse(req.startTime).value) ==>
        r == Fail(StatusBadRequest, EndBeforeStart)
      ensures r.Ok? <==> Parse(req.startTime).Some? && Parse(req.endTime).Some? && !Before(Parse(req.endTime).value, Parse(req.startTime).value)
      ensures r.Fail? ==> events == old(events)
      ensures r.Ok? ==>
        && r == Ok(StatusCreated, Event(newId, req.title, req.description, Parse(req.startTime).value, Parse(req.endTime).value,
                                         req.location, req.rsvpEnabled, req.imageUrl, req.category, CreatedBySystem, now, now))
        && events == old(events)[newId := r.value]
        && (newId !in old(events) ==> |events| == |old(events)| + 1)
    {
      var start := Parse(req.startTime);
      if start.None? {
        return Fail(StatusBadRequest, BadStart);
      }
      var end := Parse(req.endTime);
      if end.None? {
        return Fail(StatusBadRequest, BadEnd);
      }
      if Before(end.value, start.value) {
        return Fail(StatusBadRequest, EndBeforeStart);
      }
      var event := Event(newId, req.title, req.description, start.value, end.value,
                         req.location, req.rsvpEnabled, req.imageUrl, req.category, CreatedBySystem, now, now);
      events := events[newId := event];
      r := Ok(StatusCreated, event);
    }

    method GetEventById(id: string) returns (r: Outcome<Event>)
      ensures id in events ==> r == Ok(StatusOK, events[id])
      ensures id !in events ==> r == Fail(StatusNotFound, EventNotFound)
    {
      if id !in events {
        return Fail(StatusNotFound, EventNotFound);
      }
      r := Ok(StatusOK, events[id]);
    }

    /** PUT /events/:id replaces every editable field; there is no end-after-start check here. */
    method UpdateEvent(id: string, req: CreateEventRequest, now: int) returns (r: Outcome<Event>)
      requires Valid()
      modifies this
      ensures Valid()
      ensures id !in old(events) ==> r == Fail(StatusNotFound, EventNotFound)
      ensures id in old(events) && Parse(req.startTime).None? ==> r == Fail(StatusBadRequest, BadStart)
      ensures id in old(events) && Parse(req.startTime).Some? && Parse(req.endTime).None? ==> r == Fail(StatusBadRequest, BadEnd)
      ensures r.Ok? <==> id in old(events) && Parse(req.startTime).Some? && Parse(req.endTime).Some?
      ensures r.Fail? ==> events == old(events)
      ensures r.Ok? ==>
        var e := old(events)[id];
        && r == Ok(StatusOK, Event(e.id, req.title, req.description, Parse(req.startTime).value, Parse(req.endTime).value,
                                    req.location, req.rsvpEnabled, req.imageUrl, req.category, e.createdBy, e.createdAt, now))
        && events == old(events)[id := r.value]
    {
      if id !in events {
        return Fail(StatusNotFound, EventNotFound);
      }
      var event := events[id];
      var start := Parse(req.startTime);
      if start.None? {
        return Fail(StatusBadRequest, BadStart);
      }
      var end := Parse(req.endTime);
      if end.None? {
        return Fail(StatusBadRequest, BadEnd);
      }
      event := event.(title := req.title, description := req.description, startTime := start.value,
                      endTime := end.value, location := req.location, rsvpEnabled := req.rsvpEnabled,
                      imageUrl := req.imageUrl, category := req.category, updatedAt := now);
      events := events[id := event];
      r := Ok(StatusOK, event);
    }

    method DeleteEvent(id: string) returns (r: Outcome<string>)
      requires Valid()
      modifies this
      ensures Valid()
      ensures id !in old(events) ==> r == Fail(StatusNotFound, EventNotFound) && events == old(events)
      ensures id in old(events) ==> r.Ok? && r.status == StatusOK && events == old(events) - {id}
    {
      if id !in events {
        return Fail(StatusNotFound, EventNotFound);
      }
      events := events - {id};
      r := Ok(StatusOK, "Event deleted successfully");
    }
  }
}

/** The event routes over the `event` table, keyed by `id`. */
module EventFlow {
  import opened Http

  /** A row of `event`. The code never checks a lower bound on `capacity`. */
  datatype Event = Event(id: int, name: string, description: string, date: string,
                         location: string, capacity: int)

  /** Each row sits under its own id. */
  predicate WellFormedEvents(events: map<int, Event>) {
    forall id | id in events :: events[id].id == id
  }

  const EventNotFoundError := "Event not found"
  const RsvpMessage := "RSVP successful"
  const RsvpError := "Error RSVPing for event"
  const CreateEventError := "Error creating event"

  /** `POST /events/rsvp/:id`: `UPDATE event SET capacity = capacity - 1 WHERE
      id = $1 RETURNING *`, then 404 when no row came back. `updateFails` is a
      store error, which is answered with 500. */
  function Rsvp(events: map<int, Event>, id: int, updateFails: bool): (out: (Response, map<int, Event>))
    ensures out.0.status == 200 <==> !updateFails && id in events
    ensures out.0.status == 404 <==> !updateFails && id !in events
    ensures out.0.status == 500 <==> updateFails
    ensures out.0.status == 200 ==>
              && out.0.body == Message(RsvpMessage)
              && out.1.Keys == events.Keys
              && out.1[id] == events[id].(capacity := events[id].capacity - 1)
              && (forall k | k in events && k != id :: out.1[k] == events[k])
    ensures out.0.status != 200 ==> out.1 == events && out.0.body.Error?
  {
    if updateFails then (Response(500, Error(RsvpError)), events)
    else if id !in events then (Response(404, Error(EventNotFoundError)), events)
    else (Response(200, Message(RsvpMessage)),
          events[id := events[id].(capacity := events[id].capacity - 1)])
  }

  lemma RsvpPreservesWellFormed(events: map<int, Event>, id: int, updateFails: bool)
    requires WellFormedEvents(events)
    ensures WellFormedEvents(Rsvp(events, id, updateFails).1)
  {
  }

  /** The table after n successful RSVPs for the same event. */
  function RsvpTimes(events: map<int, Event>, id: int, n: nat): map<int, Event> {
    if n == 0 then events else Rsvp(RsvpTimes(events, id, n - 1), id, false).1
  }

  /** n RSVPs lower the capacity by exactly n, with no floor at zero, and
      leave every other event as it was. */
  lemma {:induction false} RsvpTimesCapacity(events: map<int, Event>, id: int, n: nat)
    requires id in events
    ensures var after := RsvpTimes(events, id, n);
      && after.Keys == events.Keys
      && after[id].capacity == events[id].capacity - n
      && after[id].(capacity := 0) == events[id].(capacity := 0)
      && (forall k | k in events && k != id :: after[k] == events[k])
  {
    if n > 0 {
      RsvpTimesCapacity(events, id, n - 1);
    }
  }

  /** The missing floor: one RSVP on a full event leaves capacity at -1. */
  lemma RsvpOnFullEvent(events: map<int, Event>, id: int)
    requires id in events && events[id].capacity == 0
    ensures Rsvp(events, id, false).0.status == 200
    ensures Rsvp(events, id, false).1[id].capacity == -1
  {
  }
}

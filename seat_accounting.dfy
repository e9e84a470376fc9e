/**
 * Seat accounting on the server: the event store and the registration
 * store, and the handlers of the registration and event controllers that
 * keep each event's `leftSeats` in step with its registrations. Each
 * handler is one atomic step; it returns the HTTP status and body it sends.
 */
module SeatAccounting {
  import opened Wrappers
  import ConfirmationEmail

  /** A datastore identifier (an ObjectId). */
  type Id = string

  /** An event record. Optional text fields are `None` when absent. */
  datatype Event = Event(
    title: string, date: string, time: string, location: string,
    totalSeats: int, leftSeats: int,
    tags: Option<string>, description: Option<string>,
    highlights: Option<string>, organizer: Option<string>,
    bannerPath: string)

  /** A registration record; a required field left out of the request is "". */
  datatype Registration = Registration(
    name: string, email: string, mobile: string, message: Option<string>, eventId: Id)

  /** The fields of a create or update request body; `None` where the body leaves one out. */
  datatype EventFields = EventFields(
    title: Option<string>, date: Option<string>, time: Option<string>, location: Option<string>,
    totalSeats: Option<int>, leftSeats: Option<int>,
    tags: Option<string>, description: Option<string>,
    highlights: Option<string>, organizer: Option<string>,
    bannerPath: Option<string>, removeBanner: Option<string>)

  /** The JSON body of a response. */
  datatype Body =
    | Message(text: string)
    | SavedRegistration(id: Id, registration: Registration)
    | EventRecord(id: Id, event: Event)
    | Registrants(found: map<Id, Registration>)
    | Restored(text: string, restoredSeats: nat)

  datatype Response = Response(status: int, body: Body)

  /** The ids of the registrations that reference `eventId` (`Registration.find({ eventId })`). */
  function RegistrationsFor(regs: map<Id, Registration>, eventId: Id): set<Id> {
    set r | r in regs && regs[r].eventId == eventId
  }

  /** `Registration.countDocuments({ eventId })`. */
  function Count(regs: map<Id, Registration>, eventId: Id): nat {
    |RegistrationsFor(regs, eventId)|
  }

  /** The registrations left after `Registration.deleteMany({ eventId })`. */
  function WithoutEvent(regs: map<Id, Registration>, eventId: Id): (rest: map<Id, Registration>)
    ensures forall r :: r in rest <==> r in regs && regs[r].eventId != eventId
    ensures forall r :: r in rest ==> rest[r] == regs[r]
  {
    map r | r in regs && regs[r].eventId != eventId :: regs[r]
  }

  /** Saving a registration under a new id adds one to its own event's count and nothing to the others. */
  lemma CountAfterSave(regs: map<Id, Registration>, id: Id, reg: Registration, e: Id)
    requires id !in regs
    ensures Count(regs[id := reg], e) == Count(regs, e) + (if reg.eventId == e then 1 else 0)
  {
    if reg.eventId == e {
      assert RegistrationsFor(regs[id := reg], e) == RegistrationsFor(regs, e) + {id};
    } else {
      assert RegistrationsFor(regs[id := reg], e) == RegistrationsFor(regs, e);
    }
  }

  /** Deleting one registration takes one from its own event's count and nothing from the others. */
  lemma CountAfterDelete(regs: map<Id, Registration>, id: Id, e: Id)
    requires id in regs
    ensures Count(regs - {id}, e) == Count(regs, e) - (if regs[id].eventId == e then 1 else 0)
  {
    if regs[id].eventId == e {
      assert RegistrationsFor(regs, e) == RegistrationsFor(regs - {id}, e) + {id};
    } else {
      assert RegistrationsFor(regs - {id}, e) == RegistrationsFor(regs, e);
    }
  }

  /** Deleting every registration of one event leaves it none and leaves the other events' counts alone. */
  lemma CountAfterDeleteAll(regs: map<Id, Registration>, eventId: Id, e: Id)
    ensures Count(WithoutEvent(regs, eventId), e) == if e == eventId then 0 else Count(regs, e)
  {
    if e == eventId {
      assert RegistrationsFor(WithoutEvent(regs, eventId), e) == {};
    } else {
      assert RegistrationsFor(WithoutEvent(regs, eventId), e) == RegistrationsFor(regs, e);
    }
  }

  /** `Math.max(0, totalSeats - regCount)`: the seats left after the capacity is set. */
  function SeatsAfterResize(totalSeats: int, regCount: nat): (left: int)
    ensures left >= 0 && left >= totalSeats - regCount
    ensures left == totalSeats - regCount || left == 0
  {
    if totalSeats - regCount > 0 then totalSeats - regCount else 0
  }

  /** The seats left equal the capacity less the registrations held, exactly when there are no more registrations than seats. */
  lemma ResizeKeepsAccountIffWithinCapacity(totalSeats: int, regCount: nat)
    ensures SeatsAfterResize(totalSeats, regCount) == totalSeats - regCount <==> totalSeats >= regCount
    ensures totalSeats < regCount ==> SeatsAfterResize(totalSeats, regCount) == 0
  {
  }

  /** The invariant for one event: its free seats are its capacity less its registrations. */
  ghost predicate SeatsAgree(events: map<Id, Event>, regs: map<Id, Registration>, id: Id)
    requires id in events
  {
    events[id].leftSeats == events[id].totalSeats - Count(regs, id)
  }

  /** The invariant for every stored event. */
  ghost predicate Consistent(events: map<Id, Event>, regs: map<Id, Registration>) {
    forall id :: id in events ==> SeatsAgree(events, regs, id)
  }

  /** Saving a registration and taking one seat from its event keeps every event's seats in step. */
  lemma SaveKeepsConsistent(events: map<Id, Event>, regs: map<Id, Registration>, newId: Id, reg: Registration)
    requires Consistent(events, regs)
    requires newId !in regs && reg.eventId in events
    ensures Consistent(events[reg.eventId := events[reg.eventId].(leftSeats := events[reg.eventId].leftSeats - 1)],
                       regs[newId := reg])
  {
    var after := events[reg.eventId := events[reg.eventId].(leftSeats := events[reg.eventId].leftSeats - 1)];
    forall id | id in after
      ensures SeatsAgree(after, regs[newId := reg], id)
    {
      CountAfterSave(regs, newId, reg, id);
    }
  }

  /** The Registration schema's `required` fields are present (a required string must not be empty). */
  predicate IsStorable(reg: Registration) {
    reg.name != "" && reg.email != "" && reg.mobile != ""
  }

  /** The values `registerUser` passes to the mail sender; an untitled event is called "Your Event". */
  function MailDetails(reg: Registration, event: Event): (d: ConfirmationEmail.Details)
    ensures d.email == reg.email && d.message == reg.message
    ensures d.eventTitle == (if event.title != "" then event.title else "Your Event")
  {
    ConfirmationEmail.Details(
      reg.name, reg.email, if event.title != "" then event.title else "Your Event",
      event.date, reg.message, event.time, event.location)
  }

  /** The Event schema's `required` fields are in a create request. */
  predicate CanCreate(f: EventFields) {
    && f.title.Some? && f.title.value != ""
    && f.date.Some? && f.date.value != ""
    && f.time.Some? && f.time.value != ""
    && f.location.Some? && f.location.value != ""
    && f.totalSeats.Some?
  }

  /**
   * The event `createEvent` builds: the request's fields, the uploaded
   * file's name as `bannerPath` ('' without a file, whatever the body
   * says), and `leftSeats` taken from `totalSeats`, whatever the body says.
   */
  function Created(f: EventFields, file: Option<string>): (e: Event)
    requires CanCreate(f)
    ensures e.leftSeats == e.totalSeats == f.totalSeats.value
    ensures e.bannerPath == file.GetOr("")
    ensures e.title == f.title.value && e.location == f.location.value
  {
    Event(f.title.value, f.date.value, f.time.value, f.location.value,
          f.totalSeats.value, f.totalSeats.value,
          f.tags, f.description, f.highlights, f.organizer,
          file.GetOr(""))
  }

  /** `findByIdAndUpdate`: every field the update carries replaces the stored one; the rest stay. */
  function Merge(e: Event, f: EventFields): Event {
    Event(f.title.GetOr(e.title), f.date.GetOr(e.date), f.time.GetOr(e.time),
          f.location.GetOr(e.location),
          f.totalSeats.GetOr(e.totalSeats), f.leftSeats.GetOr(e.leftSeats),
          if f.tags.Some? then f.tags else e.tags,
          if f.description.Some? then f.description else e.description,
          if f.highlights.Some? then f.highlights else e.highlights,
          if f.organizer.Some? then f.organizer else e.organizer,
          f.bannerPath.GetOr(e.bannerPath))
  }

  /**
   * The update body as `updateEvent` amends it before the merge: seats
   * recounted from the registrations when a capacity is given, the banner
   * cleared when removal is asked for and there is one, and an uploaded
   * file's name set last.
   */
  function Amended(before: Event, fields: EventFields, file: Option<string>, regCount: nat): EventFields {
    var seated := if fields.totalSeats.Some?
                  then fields.(leftSeats := Some(SeatsAfterResize(fields.totalSeats.value, regCount)))
                  else fields;
    var unbannered := if fields.removeBanner == Some("true") && before.bannerPath != ""
                      then seated.(bannerPath := Some(""))
                      else seated;
    if file.Some? then unbannered.(bannerPath := Some(file.value)) else unbannered
  }

  /** The stored event after `updateEvent` with `regCount` registrations held. */
  function Updated(before: Event, fields: EventFields, file: Option<string>, regCount: nat): Event {
    Merge(before, Amended(before, fields, file, regCount))
  }

  /** What an update does to each field of the event. */
  lemma UpdateOutcome(before: Event, fields: EventFields, file: Option<string>, regCount: nat)
    ensures var after := Updated(before, fields, file, regCount);
      && after.title == fields.title.GetOr(before.title)
      && after.date == fields.date.GetOr(before.date)
      && after.time == fields.time.GetOr(before.time)
      && after.location == fields.location.GetOr(before.location)
      && after.tags == (if fields.tags.Some? then fields.tags else before.tags)
      && after.description == (if fields.description.Some? then fields.description else before.description)
      && after.totalSeats == fields.totalSeats.GetOr(before.totalSeats)
      && after.highlights == (if fields.highlights.Some? then fields.highlights else before.highlights)
      && after.organizer == (if fields.organizer.Some? then fields.organizer else before.organizer)
      && (fields.totalSeats.Some? ==> after.leftSeats == SeatsAfterResize(fields.totalSeats.value, regCount))
      && (fields.totalSeats.None? ==> after.leftSeats == fields.leftSeats.GetOr(before.leftSeats))
      && (file.Some? ==> after.bannerPath == file.value)
      && (file.None? && fields.removeBanner == Some("true") && before.bannerPath != "" ==> after.bannerPath == "")
      && (file.None? && !(fields.removeBanner == Some("true") && before.bannerPath != "") ==>
            after.bannerPath == fields.bannerPath.GetOr(before.bannerPath))
  {
    var amended := Amended(before, fields, file, regCount);
    assert amended.totalSeats == fields.totalSeats && amended.highlights == fields.highlights
        && amended.organizer == fields.organizer && amended.title == fields.title;
    assert fields.totalSeats.Some? ==> amended.leftSeats == Some(SeatsAfterResize(fields.totalSeats.value, regCount));
    assert fields.totalSeats.None? ==> amended.leftSeats == fields.leftSeats;
  }

  /**
   * An update keeps the event's seats in step with its registrations when it
   * sets no capacity below the registrations held, and sets no free-seat
   * count without a capacity.
   */
  predicate ResizeIsSound(fields: EventFields, regCount: nat) {
    && (fields.totalSeats.Some? ==> fields.totalSeats.value >= regCount)
    && (fields.totalSeats.None? ==> fields.leftSeats.None?)
  }

  lemma UpdateKeepsSeatsAgree(before: Event, fields: EventFields, file: Option<string>, regCount: nat)
    requires before.leftSeats == before.totalSeats - regCount
    requires ResizeIsSound(fields, regCount)
    ensures Updated(before, fields, file, regCount).leftSeats == Updated(before, fields, file, regCount).totalSeats - regCount
  {
  }

  /** The datastore: events and registrations by id. */
  class Store {
    var events: map<Id, Event>
    var registrations: map<Id, Registration>

    /** The seat-accounting invariant over the whole store. */
    ghost predicate Valid()
      reads this
    {
      Consistent(events, registrations)
    }

    constructor ()
      ensures events == map[] && registrations == map[]
      ensures Valid()
    {
      events := map[];
      registrations := map[];
    }

    /**
     * `registerUser` (POST /api/register): the event must exist and have a
     * seat left; the registration is saved under `newId`, the event loses
     * one seat and the confirmation mail goes out through `send`.
     */
    method RegisterUser(newId: Id, reg: Registration, send: nat -> ConfirmationEmail.Outcome)
      returns (resp: Response, notice: Option<ConfirmationEmail.Delivery>)
      requires newId !in registrations
      modifies this
      ensures reg.eventId !in old(events) ==>
        && resp == Response(404, Message("Event not found"))
        && events == old(events) && registrations == old(registrations)
      ensures reg.eventId in old(events) && old(events)[reg.eventId].leftSeats <= 0 ==>
        && resp == Response(400, Message("No seats left for this event"))
        && events == old(events) && registrations == old(registrations)
      ensures reg.eventId in old(events) && old(events)[reg.eventId].leftSeats > 0 && !IsStorable(reg) ==>
        && resp == Response(400, Message("Registration failed"))
        && events == old(events) && registrations == old(registrations)
      ensures resp.status == 201 <==>
        reg.eventId in old(events) && old(events)[reg.eventId].leftSeats > 0 && IsStorable(reg)
      ensures resp.status == 201 ==>
        var before := old(events)[reg.eventId];
        && resp.body == SavedRegistration(newId, reg)
        && registrations == old(registrations)[newId := reg]
        && events == old(events)[reg.eventId := before.(leftSeats := before.leftSeats - 1)]
        && events[reg.eventId].leftSeats >= 0
        && notice.Some? && notice.value.mail == ConfirmationEmail.Compose(MailDetails(reg, before))
      ensures resp.status != 201 ==> notice == None
      ensures old(Valid()) ==> Valid()
    {
      notice := None;
      if reg.eventId !in events {
        return Response(404, Message("Event not found")), notice;
      }
      var event := events[reg.eventId];
      if event.leftSeats <= 0 {
        return Response(400, Message("No seats left for this event")), notice;
      }
      if !IsStorable(reg) {
        // The schema validation of save() throws before anything is written.
        return Response(400, Message("Registration failed")), notice;
      }
      var saved := registrations[newId := reg];
      var taken := events[reg.eventId := event.(leftSeats := event.leftSeats - 1)];
      if Consistent(events, registrations) {
        SaveKeepsConsistent(events, registrations, newId, reg);
      }
      registrations, events := saved, taken;
      var delivery := ConfirmationEmail.SendConfirmationEmail(MailDetails(reg, event), send);
      notice := Some(delivery);
      resp := Response(201, SavedRegistration(newId, reg));
    }

    /**
     * `deleteSingleRegistrant` (DELETE /api/registrations/:id): removes the
     * registration and gives its event one seat back, if the event still exists.
     */
    method DeleteSingleRegistrant(id: Id) returns (resp: Response)
      modifies this
      ensures id !in old(registrations) ==>
        && resp == Response(404, Message("Registrant not found"))
        && events == old(events) && registrations == old(registrations)
      ensures id in old(registrations) ==>
        var e := old(registrations)[id].eventId;
        && resp == Response(200, Message("Registrant deleted and seat restored"))
        && registrations == old(registrations) - {id}
        && events == if e in old(events)
                     then old(events)[e := old(events)[e].(leftSeats := old(events)[e].leftSeats + 1)]
                     else old(events)
      ensures old(Valid()) ==> Valid()
    {
      if id !in registrations {
        return Response(404, Message("Registrant not found"));
      }
      var registrant := registrations[id];
      ghost var regsBefore := registrations;
      registrations := registrations - {id};
      if registrant.eventId in events {
        var event := events[registrant.eventId];
        events := events[registrant.eventId := event.(leftSeats := event.leftSeats + 1)];
      }
      resp := Response(200, Message("Registrant deleted and seat restored"));
      forall e | e in events
        ensures old(Valid()) ==> SeatsAgree(events, registrations, e)
      {
        CountAfterDelete(regsBefore, id, e);
      }
    }

    /**
     * `deleteAllRegistrants` (DELETE /api/registrations/event/:eventId):
     * removes every registration of the event and gives back as many seats,
     * if the event exists; the count is reported either way.
     */
    method DeleteAllRegistrants(eventId: Id) returns (resp: Response)
      modifies this
      ensures resp == Response(200, Restored("All registrants deleted", old(Count(registrations, eventId))))
      ensures registrations == WithoutEvent(old(registrations), eventId)
      ensures Count(registrations, eventId) == 0
      ensures events == if eventId in old(events)
                        then old(events)[eventId := old(events)[eventId].(
                               leftSeats := old(events)[eventId].leftSeats + old(Count(registrations, eventId)))]
                        else old(events)
      ensures old(Valid()) ==> Valid()
    {
      var count := Count(registrations, eventId);
      ghost var regsBefore := registrations;
      registrations := WithoutEvent(registrations, eventId);
      if eventId in events {
        var event := events[eventId];
        events := events[eventId := event.(leftSeats := event.leftSeats + count)];
      }
      resp := Response(200, Restored("All registrants deleted", count));
      CountAfterDeleteAll(regsBefore, eventId, eventId);
      forall e | e in events
        ensures old(Valid()) ==> SeatsAgree(events, registrations, e)
      {
        CountAfterDeleteAll(regsBefore, eventId, e);
      }
    }

    /**
     * `getRegistrantsByEvent` (GET /api/registrations/event/:eventId): the
     * registrations that reference the event, and no others.
     */
    method GetRegistrantsByEvent(eventId: Id) returns (resp: Response)
      ensures resp.status == 200 && resp.body.Registrants?
      ensures resp.body.found.Keys == RegistrationsFor(registrations, eventId)
      ensures forall r :: r in resp.body.found ==> resp.body.found[r] == registrations[r]
      ensures |resp.body.found| == Count(registrations, eventId)
    {
      var found := map r | r in registrations && registrations[r].eventId == eventId :: registrations[r];
      assert found.Keys == RegistrationsFor(registrations, eventId);
      resp := Response(200, Registrants(found));
    }

    /** `createEvent` (POST /api/events): stores `Created(fields, file)` under `newId`, or fails schema validation. */
    method CreateEvent(newId: Id, fields: EventFields, file: Option<string>) returns (resp: Response)
      requires newId !in events
      modifies this
      ensures !CanCreate(fields) ==>
        && resp == Response(500, Message("Failed to create event"))
        && events == old(events) && registrations == old(registrations)
      ensures CanCreate(fields) ==>
        && events == old(events)[newId := Created(fields, file)]
        && registrations == old(registrations)
        && resp == Response(201, EventRecord(newId, Created(fields, file)))
      ensures old(Valid()) && Count(registrations, newId) == 0 ==> Valid()
    {
      if !CanCreate(fields) {
        return Response(500, Message("Failed to create event"));
      }
      var event := Created(fields, file);
      events := events[newId := event];
      resp := Response(201, EventRecord(newId, event));
    }

    /**
     * `updateEvent` (PUT /api/events/:id): the update body is amended step by
     * step (seats recounted when `totalSeats` is given, banner removed on
     * request, a new upload winning over removal) and then merged into the
     * stored event.
     */
    method UpdateEvent(id: Id, fields: EventFields, file: Option<string>) returns (resp: Response)
      modifies this
      ensures id !in old(events) ==>
        && resp == Response(404, Message("Event not found"))
        && events == old(events) && registrations == old(registrations)
      ensures id in old(events) ==>
        && events == old(events)[id := Updated(old(events)[id], fields, file, Count(registrations, id))]
        && registrations == old(registrations)
        && resp == Response(200, EventRecord(id, events[id]))
      ensures old(Valid()) && id in old(events) && ResizeIsSound(fields, Count(registrations, id)) ==> Valid()
    {
      if id !in events {
        return Response(404, Message("Event not found"));
      }
      var event := events[id];
      var updatedData := fields;
      if updatedData.totalSeats.Some? {
        var regCount := Count(registrations, id);
        updatedData := updatedData.(leftSeats := Some(SeatsAfterResize(updatedData.totalSeats.value, regCount)));
      }
      if fields.removeBanner == Some("true") && event.bannerPath != "" {
        updatedData := updatedData.(bannerPath := Some(""));
      }
      if file.Some? {
        updatedData := updatedData.(bannerPath := Some(file.value));
      }
      var updatedEvent := Merge(event, updatedData);
      events := events[id := updatedEvent];
      resp := Response(200, EventRecord(id, updatedEvent));
      if old(Valid()) && ResizeIsSound(fields, Count(registrations, id)) {
        UpdateKeepsSeatsAgree(event, fields, file, Count(registrations, id));
      }
    }

    /** `deleteEvent` (DELETE /api/events/:id): removes the event only; its registrations stay. */
    method DeleteEvent(id: Id) returns (resp: Response)
      modifies this
      ensures id !in old(events) ==>
        && resp == Response(404, Message("Event not found"))
        && events == old(events) && registrations == old(registrations)
      ensures id in old(events) ==>
        && resp == Response(200, Message("Event and banner deleted successfully"))
        && events == old(events) - {id}
        && registrations == old(registrations)
      ensures old(Valid()) ==> Valid()
    {
      if id !in events {
        return Response(404, Message("Event not found"));
      }
      events := events - {id};
      resp := Response(200, Message("Event and banner deleted successfully"));
    }

    /** `getEventById` (GET /api/events/:id): the stored event as it is, or 404. */
    method GetEventById(id: Id) returns (resp: Response)
      ensures id !in events ==> resp == Response(404, Message("Event not found"))
      ensures id in events ==> resp == Response(200, EventRecord(id, events[id]))
    {
      if id !in events {
        return Response(404, Message("Event not found"));
      }
      resp := Response(200, EventRecord(id, events[id]));
    }
  }

  /** An event with `totalSeats` seats, as a create request carrying only the required fields makes it. */
  function SampleFields(totalSeats: int): EventFields {
    EventFields(Some("Tech Summit"), Some("2025-08-01"), Some("10:00"), Some("Hall A"),
                Some(totalSeats), None, None, None, None, None, None, None)
  }

  /** Two seats, three registrations: the third is refused, and cancelling one frees a seat again. */
  method TwoSeatScenario(send: nat -> ConfirmationEmail.Outcome) {
    var store := new Store();
    var created := store.CreateEvent("e", SampleFields(2), None);
    assert created.status == 201 && store.events["e"].leftSeats == 2;
    var a, _ := store.RegisterUser("a", Registration("A", "a@x.io", "9876543210", None, "e"), send);
    assert a.status == 201 && store.events["e"].leftSeats == 1;
    var b, _ := store.RegisterUser("b", Registration("B", "b@x.io", "9876543210", None, "e"), send);
    assert b.status == 201 && store.events["e"].leftSeats == 0;
    var c, _ := store.RegisterUser("c", Registration("C", "c@x.io", "9876543210", None, "e"), send);
    assert c == Response(400, Message("No seats left for this event"));
    assert "c" !in store.registrations;
    var gone := store.DeleteSingleRegistrant("a");
    assert store.events["e"].leftSeats == 1;
    assert store.Valid();
  }

  /**
   * Capacity cut below the registrations held: the recount clamps the free
   * seats to 0 and the event is left over capacity.
   */
  method ResizeBelowRegistrationsScenario(send: nat -> ConfirmationEmail.Outcome) {
    var store := new Store();
    var _ := store.CreateEvent("e", SampleFields(2), None);
    var _, _ := store.RegisterUser("a", Registration("A", "a@x.io", "9876543210", None, "e"), send);
    var _, _ := store.RegisterUser("b", Registration("B", "b@x.io", "9876543210", None, "e"), send);
    assert store.registrations.Keys == {"a", "b"};
    CutCapacityScenario(store, send);
  }

  /** The capacity of the two-registration event cut to one. */
  method CutCapacityScenario(store: Store, send: nat -> ConfirmationEmail.Outcome)
    requires store.registrations.Keys == {"a", "b"}
    requires store.registrations["a"].eventId == "e" && store.registrations["b"].eventId == "e"
    requires "e" in store.events
    modifies store
  {
    assert RegistrationsFor(store.registrations, "e") == {"a", "b"};
    var cut := SampleFields(1).(title := None, date := None, time := None, location := None);
    var _ := store.UpdateEvent("e", cut, None);
    assert store.events["e"].leftSeats == 0 && store.events["e"].totalSeats == 1;
    assert !store.Valid();
    CancelOverCapacityScenario(store, send);
  }

  /**
   * Then one cancellation on the over-capacity event: it adds one seat
   * arithmetically, and the event takes a new registration although its
   * registrations already exceed its capacity.
   */
  method CancelOverCapacityScenario(store: Store, send: nat -> ConfirmationEmail.Outcome)
    requires store.registrations.Keys == {"a", "b"}
    requires store.registrations["a"].eventId == "e" && store.registrations["b"].eventId == "e"
    requires "e" in store.events && store.events["e"].leftSeats == 0 && store.events["e"].totalSeats == 1
    modifies store
  {
    var _ := store.DeleteSingleRegistrant("a");
    assert store.registrations.Keys == {"b"};
    assert store.events["e"].leftSeats == 1;
    var c, _ := store.RegisterUser("c", Registration("C", "c@x.io", "9876543210", None, "e"), send);
    assert c.status == 201;
    assert store.registrations.Keys == {"b", "c"};
    assert RegistrationsFor(store.registrations, "e") == {"b", "c"};
    assert store.events["e"].totalSeats == 1 && Count(store.registrations, "e") == 2;
  }
}

/**
 * The event-creation route (app/api/events/create/route.ts): the check of the
 * mandatory fields, the record handed to the database, and the response for
 * each outcome of the insert. Reading the body and the insert itself are
 * inputs.
 */
module CreateEventRoute {
  import opened Wrappers
  import opened JsValue
  import opened EventTypes

  const MissingFields: string := "Missing mandatory event fields"
  const DatabaseError: string := "Supabase Error"
  const CreateFailed: string := "Failed to create event"
  const UnknownError: string := "An unknown error occurred"
  const EventCreated: string := "Event created successfully!"

  /** The mandatory-field check: `title`, `description`, `host`, `location`
      and `occurrences` must all be truthy. */
  predicate Validate(e: PartialEvent)
  {
    && TruthyText(e.title)
    && TruthyText(e.description)
    && TruthyObject(e.host)
    && TruthyObject(e.location)
    && TruthyObject(e.occurrences)
  }

  /** The record inserted into the `events` table (`dataToInsert`). */
  datatype InsertRecord = InsertRecord(
    title: Field<string>,
    description: Field<string>,
    price_value: Field<real>,
    price_text: Field<string>,
    currency: Field<string>,
    town_id: Field<string>,
    host: Field<Host>,
    location: Field<Location>,
    tags: Field<seq<string>>,
    image_url: Field<string>,
    links: Field<seq<Link>>,
    recurrence_rule: Field<string>,
    is_on_demand: bool,
    occurrences: Field<seq<Occurrence>>)

  /** The projection onto the listed properties, with no town yet and
      `is_on_demand` defaulted by `??`. */
  function BuildInsert(e: PartialEvent): InsertRecord
  {
    InsertRecord(
      title := e.title,
      description := e.description,
      price_value := e.price_value,
      price_text := e.price_text,
      currency := e.currency,
      town_id := Null,
      host := e.host,
      location := e.location,
      tags := e.tags,
      image_url := e.image_url,
      links := e.links,
      recurrence_rule := e.recurrence_rule,
      is_on_demand := Coalesce(e.is_on_demand, false),
      occurrences := e.occurrences)
  }

  /** The request body: `req.json()` either throws (the text is not JSON, or
      is `null` so that reading `title` throws) with a message, or yields the
      event. */
  datatype EventRequest = Unreadable(reason: string) | Body(event: PartialEvent)

  /** A value thrown inside the `try`: an `Error` with its message, or
      anything else. */
  datatype Thrown = ErrorValue(message: string) | OtherValue

  /** What the insert-and-select call comes back with: the stored row, an
      error object, or a thrown value. */
  datatype InsertOutcome =
    | Inserted(row: PartialEvent)
    | InsertError(message: string)
    | InsertThrew(thrown: Thrown)

  /** The JSON the route answers with. */
  datatype RouteBody =
    | Failure(error: string, details: Option<string>)
    | Created(message: string, data: PartialEvent)

  datatype Response = Response(status: nat, body: RouteBody)

  /** The catch block: the message of an `Error`, or a fixed text otherwise. */
  function ThrownMessage(t: Thrown): string
  {
    match t
    case ErrorValue(message) => message
    case OtherValue => UnknownError
  }

  /** The route. `insert` stands for the database call on the built record. */
  function CreateEvent(request: EventRequest, insert: InsertRecord -> InsertOutcome): Response
  {
    match request
    case Unreadable(reason) => Response(500, Failure(CreateFailed, Some(reason)))
    case Body(e) =>
      if !Validate(e) then Response(400, Failure(MissingFields, None))
      else match insert(BuildInsert(e))
        case InsertError(message) => Response(500, Failure(DatabaseError, Some(message)))
        case Inserted(row) => Response(201, Created(EventCreated, row))
        case InsertThrew(thrown) => Response(500, Failure(CreateFailed, Some(ThrownMessage(thrown))))
  }

  // ----- the mandatory-field check -----

  /** The request is refused with 400 exactly when one of the five fields is
      falsy; the insert is then never consulted. */
  lemma RejectedIffFieldFalsy(e: PartialEvent, insert: InsertRecord -> InsertOutcome)
    ensures CreateEvent(Body(e), insert).status == 400 <==>
      || !TruthyText(e.title)
      || !TruthyText(e.description)
      || !e.host.Val?
      || !e.location.Val?
      || !e.occurrences.Val?
    ensures CreateEvent(Body(e), insert).status == 400 ==>
      CreateEvent(Body(e), insert).body == Failure(MissingFields, None)
  {
  }

  /** A refused request does not depend on the database. */
  lemma RejectionIgnoresInsert(e: PartialEvent, insert1: InsertRecord -> InsertOutcome,
                               insert2: InsertRecord -> InsertOutcome)
    requires !Validate(e)
    ensures CreateEvent(Body(e), insert1) == CreateEvent(Body(e), insert2)
  {
  }

  /** A text field is falsy exactly when it is missing, null, or empty. */
  lemma FalsyTextCases(f: Field<string>)
    ensures !TruthyText(f) <==> f.Absent? || f.Null? || f == Val("")
  {
  }

  /** Empty text is falsy: an empty title or description is refused. */
  lemma EmptyTextRejected(e: PartialEvent, insert: InsertRecord -> InsertOutcome)
    requires e.title == Val("") || e.description == Val("")
    ensures CreateEvent(Body(e), insert) == Response(400, Failure(MissingFields, None))
  {
  }

  /** Empty objects and arrays are truthy: a host or location with no
      properties, and no occurrences at all, pass the check. */
  lemma EmptyStructuresAccepted(e: PartialEvent)
    requires TruthyText(e.title) && TruthyText(e.description)
    requires e.host == Val(Host(Absent, Absent, Absent))
    requires e.location == Val(Location(Absent, Absent, Absent, Absent))
    requires e.occurrences == Val([])
    ensures Validate(e)
  {
  }

  /** An event with a title and a description and nothing else of substance. */
  const BareEvent: PartialEvent := PartialEvent(
    id := Absent, title := Val("Beach yoga"), description := Val("Sunrise session"),
    price_value := Absent, price_text := Absent, currency := Absent,
    town_id := Absent, town := Absent,
    host := Val(Host(Absent, Absent, Absent)),
    location := Val(Location(Absent, Absent, Absent, Absent)),
    tags := Absent, image_url := Absent, links := Absent, recurrence_rule := Absent,
    is_on_demand := Absent, occurrences := Val([]), created_at := Absent)

  /** The check guarantees neither an occurrence nor a host name: an event
      with neither is accepted and goes to the database. */
  lemma CheckGuaranteesNoOccurrenceOrHostName(insert: InsertRecord -> InsertOutcome)
    ensures Validate(BareEvent)
    ensures BareEvent.occurrences == Val([]) && BareEvent.host.value.name.Absent?
    ensures insert(BuildInsert(BareEvent)).Inserted? ==>
      CreateEvent(Body(BareEvent), insert).status == 201
  {
    EmptyStructuresAccepted(BareEvent);
  }

  // ----- the inserted record -----

  /** The record never carries a town, whatever the input says. */
  lemma TownIdAlwaysNull(e: PartialEvent)
    ensures BuildInsert(e).town_id == Null
  {
  }

  /** `is_on_demand` is false when missing or null and copied otherwise. */
  lemma IsOnDemandDefault(e: PartialEvent)
    ensures !e.is_on_demand.Val? ==> BuildInsert(e).is_on_demand == false
    ensures e.is_on_demand.Val? ==> BuildInsert(e).is_on_demand == e.is_on_demand.value
  {
  }

  /** Every listed property other than `town_id` and `is_on_demand` is
      copied unchanged. */
  lemma ListedFieldsCopied(e: PartialEvent)
    ensures var r := BuildInsert(e);
      && r.title == e.title && r.description == e.description
      && r.price_value == e.price_value && r.price_text == e.price_text
      && r.currency == e.currency && r.host == e.host && r.location == e.location
      && r.tags == e.tags && r.image_url == e.image_url && r.links == e.links
      && r.recurrence_rule == e.recurrence_rule && r.occurrences == e.occurrences
  {
  }

  /** The properties outside the list (`id`, `created_at`, `town`, and the
      client's own `town_id`) have no effect on the record. */
  lemma OtherKeysIgnored(e: PartialEvent, id: Field<string>, town_id: Field<string>,
                         town: Field<string>, created_at: Field<string>)
    ensures BuildInsert(e.(id := id, town_id := town_id, town := town, created_at := created_at)) ==
              BuildInsert(e)
  {
  }

  /** Conversely, two inputs with the same record agree on every listed
      property, up to the defaulting of `is_on_demand`. */
  lemma SameRecordSameListedFields(e1: PartialEvent, e2: PartialEvent)
    requires BuildInsert(e1) == BuildInsert(e2)
    ensures e1.title == e2.title && e1.description == e2.description
    ensures e1.price_value == e2.price_value && e1.price_text == e2.price_text
    ensures e1.currency == e2.currency && e1.host == e2.host && e1.location == e2.location
    ensures e1.tags == e2.tags && e1.image_url == e2.image_url && e1.links == e2.links
    ensures e1.recurrence_rule == e2.recurrence_rule && e1.occurrences == e2.occurrences
    ensures Coalesce(e1.is_on_demand, false) == Coalesce(e2.is_on_demand, false)
  {
    assert BuildInsert(e1).title == BuildInsert(e2).title;
  }

  // ----- the response -----

  /** An accepted event is answered by the insert's outcome: 201 with the
      stored row, or 500 with the database's message as `details`. */
  lemma InsertOutcomeMapping(e: PartialEvent, insert: InsertRecord -> InsertOutcome)
    requires Validate(e)
    ensures insert(BuildInsert(e)).Inserted? ==>
      CreateEvent(Body(e), insert) == Response(201, Created(EventCreated, insert(BuildInsert(e)).row))
    ensures insert(BuildInsert(e)).InsertError? ==>
      CreateEvent(Body(e), insert) ==
        Response(500, Failure(DatabaseError, Some(insert(BuildInsert(e)).message)))
  {
  }

  /** Whatever throws inside the `try` is a 500 carrying the error's message,
      or a fixed text for a thrown value that is not an `Error`. */
  lemma ThrownIs500(e: PartialEvent, insert: InsertRecord -> InsertOutcome, reason: string,
                    message: string)
    ensures CreateEvent(Unreadable(reason), insert) == Response(500, Failure(CreateFailed, Some(reason)))
    ensures Validate(e) && insert(BuildInsert(e)).InsertThrew? ==>
      CreateEvent(Body(e), insert) ==
        Response(500, Failure(CreateFailed, Some(ThrownMessage(insert(BuildInsert(e)).thrown))))
    ensures Validate(e) && insert(BuildInsert(e)) == InsertThrew(ErrorValue(message)) ==>
      CreateEvent(Body(e), insert) == Response(500, Failure(CreateFailed, Some(message)))
    ensures Validate(e) && insert(BuildInsert(e)) == InsertThrew(OtherValue) ==>
      CreateEvent(Body(e), insert) == Response(500, Failure(CreateFailed, Some(UnknownError)))
  {
  }

  /** The route answers 201, 400 or 500, and 201 only for a valid event the
      database stored. */
  lemma RouteStatuses(request: EventRequest, insert: InsertRecord -> InsertOutcome)
    ensures CreateEvent(request, insert).status in {201, 400, 500}
    ensures CreateEvent(request, insert).status == 201 <==>
      request.Body? && Validate(request.event) && insert(BuildInsert(request.event)).Inserted?
  {
  }
}

/**
 * The event record as the create route receives it: `Partial<Event>` of the
 * `Event` type in types/index.ts, every property possibly missing or null.
 * Nested objects arrive unchecked, so their properties are optional too.
 */
module EventTypes {
  import opened JsValue

  /** The event's organiser. */
  datatype Host = Host(name: Field<string>, phone_whatsapp: Field<string>, instagram: Field<string>)

  /** Where the event takes place; the coordinates take part in no decision. */
  datatype Location = Location(name: Field<string>, address: Field<string>, lat: Field<real>, lng: Field<real>)

  /** A link shown with the event. */
  datatype Link = Link(url: Field<string>, text: Field<string>)

  /** One date of the event, as ISO 8601 text. */
  datatype Occurrence = Occurrence(start_ts: Field<string>, end_ts: Field<string>)

  /** An event as a request body may carry it. `town` is not part of the
      `Event` type the route declares, but is the name the database shape in
      src/types/database.ts gives the town; clients may send it. */
  datatype PartialEvent = PartialEvent(
    id: Field<string>,
    title: Field<string>,
    description: Field<string>,
    price_value: Field<real>,
    price_text: Field<string>,
    currency: Field<string>,
    town_id: Field<string>,
    town: Field<string>,
    host: Field<Host>,
    location: Field<Location>,
    tags: Field<seq<string>>,
    image_url: Field<string>,
    links: Field<seq<Link>>,
    recurrence_rule: Field<string>,
    is_on_demand: Field<bool>,
    occurrences: Field<seq<Occurrence>>,
    created_at: Field<string>)
}

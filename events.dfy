/** The decoded queue message body the restorers read: `EventType`,
    `TenantId` and `EventBody` with its `Action` and `Object`. The object
    carries the attributes of both kinds of entity; each restorer projects
    the ones it needs. */
module Events {
  import opened Wrappers
  import opened Store

  datatype EventObject = EventObject(
    id: string,                   // Object.Id: the store key of the entity
    objectId: string,
    objectType: string,
    values: Json,
    lastUpdatedBy: string,
    name: string,
    value: Json,
    applyTo: Json,
    required: Json,
    revisionNumber: int,          // Object.RevisionNumber, stored as `_v`
    createdAt: Option<Time>,
    updatedAt: Option<Time>)

  /** `EventBody`; a missing `Object` is None. */
  datatype EventBody = EventBody(action: string, obj: Option<EventObject>)

  /** A decoded event; a missing `EventBody` is None. */
  datatype Event = Event(eventType: string, tenantId: string, body: Option<EventBody>)

  /** Why a restorer rejects an event. Reading a property of a missing
      `EventBody` or `Object` is a TypeError; any other action is refused. */
  datatype RestoreError =
    | MissingProperty(property: string)
    | UnknownAction(action: string)

  /** The error's `message`, which the dispatcher copies into the
      quarantined message's attributes. The TypeError wording is that of the
      Node.js runtime. */
  function ErrorMessage(e: RestoreError): string {
    match e
    case MissingProperty(p) => "Cannot read property '" + p + "' of undefined"
    case UnknownAction(a) => "Unknown event action: " + a
  }

  /** What a restorer's promise resolves to: the table after the rule, and
      whether the rule wrote (resolving to the store's result) or skipped
      the event (resolving to `undefined`). */
  datatype Restored<T> = Restored(table: T, written: bool)

  /** The event's object, or the TypeError that reading it raises. */
  function EventObjectOf(event: Event): (r: Result<EventObject, RestoreError>)
    ensures r.Success? <==> event.body.Some? && event.body.value.obj.Some?
    ensures r.Success? ==> r.value == event.body.value.obj.value
    ensures event.body.None? ==> r == Failure(MissingProperty("Object"))
    ensures event.body.Some? && event.body.value.obj.None? ==> r == Failure(MissingProperty("Id"))
  {
    if event.body.None? then Failure(MissingProperty("Object"))
    else if event.body.value.obj.None? then Failure(MissingProperty("Id"))
    else Success(event.body.value.obj.value)
  }
}

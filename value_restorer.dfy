/** worker/restorers/valueRestorer.js: replaying one attribute-value event
    against the value table. Each rule reads the stored value, decides with
    ReplayRules whether the event is stale, and otherwise writes through
    ValueModel.Update or ValueModel.Delete. */
module ValueRestorer {
  import opened Wrappers
  import opened Store
  import opened Events
  import opened ValueModel
  import ReplayRules

  /** `restoreCreatedEvent`: skipped exactly when a value exists that was
      created strictly after the event; otherwise the value is the event's
      data with the event's `createdAt`, no `updatedAt` and no `dateDeleted`. */
  function RestoreCreatedEvent(table: ValueTable, eventValue: ValueFields, eventCreatedAt: Option<Time>): (r: ValueTable)
    ensures var value := ReadOne(table, eventValue.valueKey);
      && (value.Some? && ReplayRules.Earlier(eventCreatedAt, value.value.createdAt) ==> r == table)
      && (!(value.Some? && ReplayRules.Earlier(eventCreatedAt, value.value.createdAt)) ==>
            r == table[eventValue.valueKey := Item(eventValue, None, eventCreatedAt, None)])
  {
    var value := ReadOne(table, eventValue.valueKey);
    var r := match ReplayRules.ResolveCreated(value, eventValue, eventCreatedAt)
      case None => table
      case Some(w) => Update(table, w.data, w.assignments);
    assert r == ReplayRules.ReplayCreated(table, eventValue.valueKey, eventValue, eventCreatedAt);
    r
  }

  /** `restoreUpdatedEvent`: skipped exactly when a value exists whose
      `updatedAt` is strictly later than the event's; otherwise the value is
      the event's data and timestamps, not deleted. */
  function RestoreUpdatedEvent(table: ValueTable, eventValue: ValueFields, eventUpdatedAt: Option<Time>, eventCreatedAt: Option<Time>): (r: ValueTable)
    ensures var value := ReadOne(table, eventValue.valueKey);
      && (value.Some? && ReplayRules.Earlier(eventUpdatedAt, value.value.updatedAt) ==> r == table)
      && (!(value.Some? && ReplayRules.Earlier(eventUpdatedAt, value.value.updatedAt)) ==>
            r == table[eventValue.valueKey := Item(eventValue, None, eventCreatedAt, eventUpdatedAt)])
  {
    var value := ReadOne(table, eventValue.valueKey);
    var r := match ReplayRules.ResolveUpdated(value, eventValue, eventUpdatedAt, eventCreatedAt)
      case None => table
      case Some(w) => Update(table, w.data, w.assignments);
    assert r == ReplayRules.ReplayUpdated(table, eventValue.valueKey, eventValue, eventUpdatedAt, eventCreatedAt);
    r
  }

  /** `restoreDeletedEvent`: skipped only when the stored value is already
      deleted, strictly after the event; an absent or undeleted value is
      never skipped. Otherwise the value is the event's data, deleted at the
      event's `updatedAt`. */
  function RestoreDeletedEvent(table: ValueTable, eventValue: ValueFields, eventUpdatedAt: Option<Time>, eventCreatedAt: Option<Time>): (r: ValueTable)
    ensures var value := ReadOne(table, eventValue.valueKey);
      && (value.Some? && value.value.dateDeleted.Some? && ReplayRules.Earlier(eventUpdatedAt, value.value.dateDeleted) ==> r == table)
      && (!ReplayRules.SkipDeleted(value, eventUpdatedAt) ==>
            r == table[eventValue.valueKey := Item(eventValue, eventUpdatedAt, eventCreatedAt, eventUpdatedAt)])
  {
    var value := ReadOne(table, eventValue.valueKey);
    var r := match ReplayRules.ResolveDeleted(value, eventValue, eventUpdatedAt, eventCreatedAt)
      case None => table
      case Some(w) => Delete(table, w.data, w.assignments);
    assert r == ReplayRules.ReplayDeleted(table, eventValue.valueKey, eventValue, eventUpdatedAt, eventCreatedAt);
    r
  }

  /** The event data `restoreEvent` builds: `valueKey` is `Object.Id`, the
      tenant is the event's `TenantId`, `_v` is `Object.RevisionNumber`. */
  function ProjectValue(tenantId: string, obj: EventObject): ValueFields {
    ValueFields(obj.id, tenantId, obj.objectId, obj.objectType, obj.values, obj.lastUpdatedBy, obj.revisionNumber)
  }

  /** The rule an event with a known action follows. */
  function RuleEventOf(tenantId: string, action: string, obj: EventObject): ReplayRules.RuleEvent<ValueFields>
    requires action in {"Created", "Updated", "Deleted"}
  {
    var eventValue := ProjectValue(tenantId, obj);
    if action == "Created" then ReplayRules.Created(eventValue, obj.createdAt)
    else if action == "Updated" then ReplayRules.Updated(eventValue, obj.updatedAt, obj.createdAt)
    else ReplayRules.Deleted(eventValue, obj.updatedAt, obj.createdAt)
  }

  /** `restoreEvent(context, event, valueTableName)`: project the event, then
      switch on `EventBody.Action`. */
  function RestoreEvent(table: ValueTable, event: Event): (r: Result<Restored<ValueTable>, RestoreError>)
    ensures EventObjectOf(event).Failure? ==> r == Failure(EventObjectOf(event).error)
    ensures EventObjectOf(event).Success? && event.body.value.action !in {"Created", "Updated", "Deleted"} ==>
              r == Failure(UnknownAction(event.body.value.action))
    ensures EventObjectOf(event).Success? && event.body.value.action in {"Created", "Updated", "Deleted"} ==>
              var e := RuleEventOf(event.tenantId, event.body.value.action, event.body.value.obj.value);
              r == Success(Restored(ReplayRules.Replay(table, event.body.value.obj.value.id, e),
                                    !ReplayRules.Skips(table, event.body.value.obj.value.id, e)))
    ensures r.Success? && !r.value.written ==> r.value.table == table
    ensures r.Success? ==> r.value.table.Keys <= table.Keys + {event.body.value.obj.value.id}
    ensures r.Success? ==> forall k | k in table && k != event.body.value.obj.value.id :: k in r.value.table && r.value.table[k] == table[k]
  {
    var obj :- EventObjectOf(event);
    var eventValue := ProjectValue(event.tenantId, obj);
    var action := event.body.value.action;
    if action in {"Created", "Updated", "Deleted"} then
      var e := RuleEventOf(event.tenantId, action, obj);
      var restored := match action
        case "Created" => RestoreCreatedEvent(table, eventValue, obj.createdAt)
        case "Updated" => RestoreUpdatedEvent(table, eventValue, obj.updatedAt, obj.createdAt)
        case _ => RestoreDeletedEvent(table, eventValue, obj.updatedAt, obj.createdAt);
      ReplayRules.SkipsIffNoWrite(table, obj.id, e);
      Success(Restored(restored, !ReplayRules.Skips(table, obj.id, e)))
    else
      Failure(UnknownAction(action))
  }

  /** Re-delivering an event that was restored changes nothing. */
  lemma RestoreEventIdempotent(table: ValueTable, event: Event)
    requires RestoreEvent(table, event).Success?
    ensures var once := RestoreEvent(table, event).value.table;
      RestoreEvent(once, event).Success? && RestoreEvent(once, event).value.table == once
  {
    var body := event.body.value;
    var e := RuleEventOf(event.tenantId, body.action, body.obj.value);
    ReplayRules.ReplayIdempotent(table, body.obj.value.id, e);
  }

  /** Restoring keeps every value under its own `valueKey`. */
  lemma RestoreEventKeepsKeys(table: ValueTable, event: Event)
    requires KeyedByValueKey(table)
    requires RestoreEvent(table, event).Success?
    ensures KeyedByValueKey(RestoreEvent(table, event).value.table)
  {
  }
}

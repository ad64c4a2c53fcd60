/** worker/restorers/definitionRestorer.js: replaying one attribute-definition
    event against the definition table, under the (tenantId, id) key. The
    rules are those of the value restorer; the stored definition is looked up
    under the event's own tenant and id. */
module DefinitionRestorer {
  import opened Wrappers
  import opened Store
  import opened Events
  import opened DefinitionModel
  import ReplayRules

  /** `restoreCreatedEvent`: skipped exactly when a definition exists that
      was created strictly after the event; otherwise the definition is the
      event's data with the event's `createdAt`, no `updatedAt`, not deleted. */
  function RestoreCreatedEvent(table: DefinitionTable, eventDefinition: DefinitionFields, eventCreatedAt: Option<Time>): (r: DefinitionTable)
    ensures var definition := ReadOne(table, eventDefinition.tenantId, eventDefinition.id);
      && (definition.Some? && ReplayRules.Earlier(eventCreatedAt, definition.value.createdAt) ==> r == table)
      && (!(definition.Some? && ReplayRules.Earlier(eventCreatedAt, definition.value.createdAt)) ==>
            r == table[KeyOf(eventDefinition) := Item(eventDefinition, None, eventCreatedAt, None)])
  {
    var definition := ReadOne(table, eventDefinition.tenantId, eventDefinition.id);
    var r := match ReplayRules.ResolveCreated(definition, eventDefinition, eventCreatedAt)
      case None => table
      case Some(w) => Update(table, w.data, w.assignments);
    assert r == ReplayRules.ReplayCreated(table, KeyOf(eventDefinition), eventDefinition, eventCreatedAt);
    r
  }

  /** `restoreUpdatedEvent`: skipped exactly when a definition exists whose
      `updatedAt` is strictly later than the event's. */
  function RestoreUpdatedEvent(table: DefinitionTable, eventDefinition: DefinitionFields, eventUpdatedAt: Option<Time>, eventCreatedAt: Option<Time>): (r: DefinitionTable)
    ensures var definition := ReadOne(table, eventDefinition.tenantId, eventDefinition.id);
      && (definition.Some? && ReplayRules.Earlier(eventUpdatedAt, definition.value.updatedAt) ==> r == table)
      && (!(definition.Some? && ReplayRules.Earlier(eventUpdatedAt, definition.value.updatedAt)) ==>
            r == table[KeyOf(eventDefinition) := Item(eventDefinition, None, eventCreatedAt, eventUpdatedAt)])
  {
    var definition := ReadOne(table, eventDefinition.tenantId, eventDefinition.id);
    var r := match ReplayRules.ResolveUpdated(definition, eventDefinition, eventUpdatedAt, eventCreatedAt)
      case None => table
      case Some(w) => Update(table, w.data, w.assignments);
    assert r == ReplayRules.ReplayUpdated(table, KeyOf(eventDefinition), eventDefinition, eventUpdatedAt, eventCreatedAt);
    r
  }

  /** `restoreDeletedEvent` as its guard evidently intends: skipped only
      when the stored definition is already deleted, strictly after the
      event. */
  function RestoreDeletedEvent(table: DefinitionTable, eventDefinition: DefinitionFields, eventUpdatedAt: Option<Time>, eventCreatedAt: Option<Time>): (r: DefinitionTable)
    ensures var definition := ReadOne(table, eventDefinition.tenantId, eventDefinition.id);
      && (definition.Some? && definition.value.dateDeleted.Some? && ReplayRules.Earlier(eventUpdatedAt, definition.value.dateDeleted) ==> r == table)
      && (!ReplayRules.SkipDeleted(definition, eventUpdatedAt) ==>
            r == table[KeyOf(eventDefinition) := Item(eventDefinition, eventUpdatedAt, eventCreatedAt, eventUpdatedAt)])
  {
    var definition := ReadOne(table, eventDefinition.tenantId, eventDefinition.id);
    var r := match ReplayRules.ResolveDeleted(definition, eventDefinition, eventUpdatedAt, eventCreatedAt)
      case None => table
      case Some(w) => Delete(table, w.data, w.assignments);
    assert r == ReplayRules.ReplayDeleted(table, KeyOf(eventDefinition), eventDefinition, eventUpdatedAt, eventCreatedAt);
    r
  }

  /** `restoreDeletedEvent` as written: once a stored definition has a
      `dateDeleted`, the guard goes on to read `value.dateDeleted`, and
      `value` is bound nowhere in the file, so the rule throws a
      ReferenceError instead of comparing. */
  function RestoreDeletedEventAsWritten(table: DefinitionTable, eventDefinition: DefinitionFields, eventUpdatedAt: Option<Time>, eventCreatedAt: Option<Time>): (r: Result<DefinitionTable, string>)
    ensures var definition := ReadOne(table, eventDefinition.tenantId, eventDefinition.id);
      && (definition.Some? && definition.value.dateDeleted.Some? <==> r.Failure?)
      && (r.Success? ==> r.value == RestoreDeletedEvent(table, eventDefinition, eventUpdatedAt, eventCreatedAt))
  {
    var definition := ReadOne(table, eventDefinition.tenantId, eventDefinition.id);
    if definition.Some? && definition.value.dateDeleted.Some? then
      Failure("value is not defined")
    else
      Success(Delete(table, Data(eventDefinition, eventUpdatedAt),
                     ReplayRules.TimestampAssignments(eventUpdatedAt, eventCreatedAt)))
  }

  /** Delivering the same Deleted event twice: the intended rule leaves the
      table as the first delivery left it, the rule as written throws on the
      second delivery, whatever the definition and timestamps. */
  lemma {:induction false} DeletedRedeliveryAsWritten(eventDefinition: DefinitionFields, u: Time, c: Option<Time>)
    ensures var once := RestoreDeletedEvent(map[], eventDefinition, Some(u), c);
      && RestoreDeletedEventAsWritten(map[], eventDefinition, Some(u), c) == Success(once)
      && RestoreDeletedEventAsWritten(once, eventDefinition, Some(u), c).Failure?
      && RestoreDeletedEvent(once, eventDefinition, Some(u), c) == once
  {
    var once := RestoreDeletedEvent(map[], eventDefinition, Some(u), c);
    assert once == map[KeyOf(eventDefinition) := Item(eventDefinition, Some(u), c, Some(u))];
    assert ReadOne(once, eventDefinition.tenantId, eventDefinition.id) == Some(once[KeyOf(eventDefinition)]);
    ReplayRules.ReplayIdempotent(map[], KeyOf(eventDefinition), ReplayRules.Deleted(eventDefinition, Some(u), c));
  }

  /** The event data `restoreEvent` builds: `id` is `Object.Id`, the tenant
      is the event's `TenantId`, `_v` is `Object.RevisionNumber`. */
  function ProjectDefinition(tenantId: string, obj: EventObject): DefinitionFields {
    DefinitionFields(obj.id, tenantId, obj.name, obj.value, obj.applyTo, obj.required, obj.revisionNumber)
  }

  /** The rule an event with a known action follows. */
  function RuleEventOf(tenantId: string, action: string, obj: EventObject): ReplayRules.RuleEvent<DefinitionFields>
    requires action in {"Created", "Updated", "Deleted"}
  {
    var eventDefinition := ProjectDefinition(tenantId, obj);
    if action == "Created" then ReplayRules.Created(eventDefinition, obj.createdAt)
    else if action == "Updated" then ReplayRules.Updated(eventDefinition, obj.updatedAt, obj.createdAt)
    else ReplayRules.Deleted(eventDefinition, obj.updatedAt, obj.createdAt)
  }

  /** `restoreEvent(context, event)`: project the event, then switch on
      `EventBody.Action`; only the event's (tenant, id) entry can change. */
  function RestoreEvent(table: DefinitionTable, event: Event): (r: Result<Restored<DefinitionTable>, RestoreError>)
    ensures EventObjectOf(event).Failure? ==> r == Failure(EventObjectOf(event).error)
    ensures EventObjectOf(event).Success? && event.body.value.action !in {"Created", "Updated", "Deleted"} ==>
              r == Failure(UnknownAction(event.body.value.action))
    ensures EventObjectOf(event).Success? && event.body.value.action in {"Created", "Updated", "Deleted"} ==>
              var e := RuleEventOf(event.tenantId, event.body.value.action, event.body.value.obj.value);
              r == Success(Restored(ReplayRules.Replay(table, DefinitionKey(event.tenantId, event.body.value.obj.value.id), e),
                                    !ReplayRules.Skips(table, DefinitionKey(event.tenantId, event.body.value.obj.value.id), e)))
    ensures r.Success? && !r.value.written ==> r.value.table == table
    ensures r.Success? ==> r.value.table.Keys <= table.Keys + {DefinitionKey(event.tenantId, event.body.value.obj.value.id)}
    ensures r.Success? ==> forall k | k in table && k != DefinitionKey(event.tenantId, event.body.value.obj.value.id) ::
              k in r.value.table && r.value.table[k] == table[k]
  {
    var obj :- EventObjectOf(event);
    var eventDefinition := ProjectDefinition(event.tenantId, obj);
    var action := event.body.value.action;
    if action in {"Created", "Updated", "Deleted"} then
      var e := RuleEventOf(event.tenantId, action, obj);
      var restored := match action
        case "Created" => RestoreCreatedEvent(table, eventDefinition, obj.createdAt)
        case "Updated" => RestoreUpdatedEvent(table, eventDefinition, obj.updatedAt, obj.createdAt)
        case _ => RestoreDeletedEvent(table, eventDefinition, obj.updatedAt, obj.createdAt);
      ReplayRules.SkipsIffNoWrite(table, DefinitionKey(event.tenantId, obj.id), e);
      Success(Restored(restored, !ReplayRules.Skips(table, DefinitionKey(event.tenantId, obj.id), e)))
    else
      Failure(UnknownAction(action))
  }

  /** Re-delivering an event that was restored changes nothing. */
  lemma RestoreEventIdempotent(table: DefinitionTable, event: Event)
    requires RestoreEvent(table, event).Success?
    ensures var once := RestoreEvent(table, event).value.table;
      RestoreEvent(once, event).Success? && RestoreEvent(once, event).value.table == once
  {
    var body := event.body.value;
    var e := RuleEventOf(event.tenantId, body.action, body.obj.value);
    ReplayRules.ReplayIdempotent(table, DefinitionKey(event.tenantId, body.obj.value.id), e);
  }

  /** Restoring keeps every definition under its own (tenantId, id) key. */
  lemma RestoreEventKeepsKeys(table: DefinitionTable, event: Event)
    requires KeyedByTenantAndId(table)
    requires RestoreEvent(table, event).Success?
    ensures KeyedByTenantAndId(RestoreEvent(table, event).value.table)
  {
  }
}

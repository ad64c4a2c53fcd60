/** worker/models/definitionModel.js: attribute definitions, keyed by the
    pair (`tenantId` hash key, `id` range key), and the three store calls. */
module DefinitionModel {
  import opened Wrappers
  import opened Store

  /** The attributes the definition restorer copies from an event. */
  datatype DefinitionFields = DefinitionFields(
    id: string,
    tenantId: string,
    name: string,
    value: Json,
    applyTo: Json,
    required: Json,
    version: int)

  datatype DefinitionKey = DefinitionKey(tenantId: string, id: string)

  type DefinitionTable = map<DefinitionKey, Item<DefinitionFields>>

  function KeyOf(fields: DefinitionFields): DefinitionKey {
    DefinitionKey(fields.tenantId, fields.id)
  }

  /** Every stored definition sits under its own (tenantId, id) pair. */
  ghost predicate KeyedByTenantAndId(table: DefinitionTable) {
    forall k | k in table :: KeyOf(table[k].fields) == k
  }

  /** `readOne(context, tenantId, defId)` */
  function ReadOne(table: DefinitionTable, tenantId: string, defId: string): (r: Option<Item<DefinitionFields>>)
    ensures r.Some? <==> DefinitionKey(tenantId, defId) in table
    ensures r.Some? ==> r.value == table[DefinitionKey(tenantId, defId)]
    ensures KeyedByTenantAndId(table) && r.Some? ==> r.value.fields.tenantId == tenantId && r.value.fields.id == defId
  {
    Get(table, DefinitionKey(tenantId, defId))
  }

  /** `update(context, definitionData, expectation)`: written under the
      data's own key, with `dateDeleted` null whatever the data carried. */
  function Update(table: DefinitionTable, definitionData: Data<DefinitionFields>, expectation: seq<Assignment>): (r: DefinitionTable)
    ensures var key := KeyOf(definitionData.fields);
      && r.Keys == table.Keys + {key}
      && (forall k | k in table && k != key :: r[k] == table[k])
      && r[key].fields == definitionData.fields && r[key].dateDeleted == None
    ensures var key := KeyOf(definitionData.fields);
      forall a :: !Mentions(expectation, a) ==> Watermark(r[key], a) == StoredWatermark(table, key, a)
    ensures var key := KeyOf(definitionData.fields);
      forall i :: LastSet(expectation, i) ==> Watermark(r[key], expectation[i].attr) == expectation[i].time
    ensures KeyedByTenantAndId(table) ==> KeyedByTenantAndId(r)
  {
    UpdateItem(table, KeyOf(definitionData.fields), definitionData, expectation)
  }

  /** `delete(context, definitionData, expectation)`: the data, with the
      `dateDeleted` the caller set, is written unchanged. */
  function Delete(table: DefinitionTable, definitionData: Data<DefinitionFields>, expectation: seq<Assignment>): (r: DefinitionTable)
    ensures var key := KeyOf(definitionData.fields);
      && r.Keys == table.Keys + {key}
      && (forall k | k in table && k != key :: r[k] == table[k])
      && r[key].fields == definitionData.fields && r[key].dateDeleted == definitionData.dateDeleted
    ensures var key := KeyOf(definitionData.fields);
      forall a :: !Mentions(expectation, a) ==> Watermark(r[key], a) == StoredWatermark(table, key, a)
    ensures var key := KeyOf(definitionData.fields);
      forall i :: LastSet(expectation, i) ==> Watermark(r[key], expectation[i].attr) == expectation[i].time
    ensures KeyedByTenantAndId(table) ==> KeyedByTenantAndId(r)
  {
    DeleteItem(table, KeyOf(definitionData.fields), definitionData, expectation)
  }
}

/** The conflict-resolution rules both restorers apply
    (worker/restorers/valueRestorer.js and worker/restorers/definitionRestorer.js
    hold one copy each): read the stored record, compare the event's
    timestamp with one watermark using a strict `<`, and either skip the
    event or write the event's data with the watermarks it carries. */
module ReplayRules {
  import opened Wrappers
  import opened Store

  /** `new Date(a).getTime() < new Date(b).getTime()`: a missing or
      unparseable date is NaN, and every comparison with NaN is false. */
  predicate Earlier(a: Option<Time>, b: Option<Time>) {
    a.Some? && b.Some? && a.value < b.value
  }

  /** Created: skip when a record exists and the event was created strictly earlier. */
  predicate SkipCreated<F>(value: Option<Item<F>>, eventCreatedAt: Option<Time>) {
    value.Some? && Earlier(eventCreatedAt, value.value.createdAt)
  }

  /** Updated: skip when a record exists and the event is strictly older than its `updatedAt`. */
  predicate SkipUpdated<F>(value: Option<Item<F>>, eventUpdatedAt: Option<Time>) {
    value.Some? && Earlier(eventUpdatedAt, value.value.updatedAt)
  }

  /** Deleted: skip only when the record is already deleted, and deleted
      strictly after the event. */
  predicate SkipDeleted<F>(value: Option<Item<F>>, eventUpdatedAt: Option<Time>) {
    value.Some? && value.value.dateDeleted.Some? && Earlier(eventUpdatedAt, value.value.dateDeleted)
  }

  /** What the Created rule's update expression does (see
      UpdateExpressions.BuildCreatedUpdates for the object itself). */
  function CreatedAssignments<F>(value: Option<Item<F>>, eventCreatedAt: Option<Time>): seq<Assignment> {
    [Set(CreatedAt, eventCreatedAt)] + if value.Some? then [Remove(UpdatedAt, value.value.updatedAt)] else []
  }

  /** What the Updated and Deleted rules' update expression does. */
  function TimestampAssignments(eventUpdatedAt: Option<Time>, eventCreatedAt: Option<Time>): seq<Assignment> {
    [Set(UpdatedAt, eventUpdatedAt), Set(CreatedAt, eventCreatedAt)]
  }

  /** Which model call a rule ends in. */
  datatype Op = UpdateOp | DeleteOp

  datatype Write<F> = Write(op: Op, data: Data<F>, assignments: seq<Assignment>)

  function ResolveCreated<F>(value: Option<Item<F>>, fields: F, eventCreatedAt: Option<Time>): Option<Write<F>> {
    if SkipCreated(value, eventCreatedAt) then None
    else Some(Write(UpdateOp, Data(fields, None), CreatedAssignments(value, eventCreatedAt)))
  }

  function ResolveUpdated<F>(value: Option<Item<F>>, fields: F, eventUpdatedAt: Option<Time>, eventCreatedAt: Option<Time>): Option<Write<F>> {
    if SkipUpdated(value, eventUpdatedAt) then None
    else Some(Write(UpdateOp, Data(fields, None), TimestampAssignments(eventUpdatedAt, eventCreatedAt)))
  }

  /** The Deleted rule sets the event data's `dateDeleted` to the event's
      `updatedAt` before writing it through `delete`. */
  function ResolveDeleted<F>(value: Option<Item<F>>, fields: F, eventUpdatedAt: Option<Time>, eventCreatedAt: Option<Time>): Option<Write<F>> {
    if SkipDeleted(value, eventUpdatedAt) then None
    else
      var eventData := Data(fields, None);
      var eventData := eventData.(dateDeleted := eventUpdatedAt);
      Some(Write(DeleteOp, eventData, TimestampAssignments(eventUpdatedAt, eventCreatedAt)))
  }

  function Perform<K, F>(table: map<K, Item<F>>, key: K, w: Write<F>): map<K, Item<F>> {
    match w.op
    case UpdateOp => UpdateItem(table, key, w.data, w.assignments)
    case DeleteOp => DeleteItem(table, key, w.data, w.assignments)
  }

  function Apply<K, F>(table: map<K, Item<F>>, key: K, w: Option<Write<F>>): map<K, Item<F>> {
    if w.Some? then Perform(table, key, w.value) else table
  }

  /** A Created event: either nothing changes, or the record at `key` holds
      the event's data and `createdAt`, is not deleted, and has lost its
      `updatedAt` watermark (the expression deletes the value just read). */
  function ReplayCreated<K, F>(table: map<K, Item<F>>, key: K, fields: F, eventCreatedAt: Option<Time>): (r: map<K, Item<F>>)
    ensures SkipCreated(Get(table, key), eventCreatedAt) ==> r == table
    ensures !SkipCreated(Get(table, key), eventCreatedAt) ==> r == table[key := Item(fields, None, eventCreatedAt, None)]
  {
    var value := Get(table, key);
    var base := Item(fields, None, if value.Some? then value.value.createdAt else None, if value.Some? then value.value.updatedAt else None);
    AssignAllOne(base, Set(CreatedAt, eventCreatedAt));
    AssignAllTwo(base, Set(CreatedAt, eventCreatedAt), Remove(UpdatedAt, base.updatedAt));
    Apply(table, key, ResolveCreated(value, fields, eventCreatedAt))
  }

  /** An Updated event: either nothing changes, or the record at `key` is
      exactly the event's data and timestamps, with no `dateDeleted`. */
  function ReplayUpdated<K, F>(table: map<K, Item<F>>, key: K, fields: F, eventUpdatedAt: Option<Time>, eventCreatedAt: Option<Time>): (r: map<K, Item<F>>)
    ensures SkipUpdated(Get(table, key), eventUpdatedAt) ==> r == table
    ensures !SkipUpdated(Get(table, key), eventUpdatedAt) ==> r == table[key := Item(fields, None, eventCreatedAt, eventUpdatedAt)]
  {
    var value := Get(table, key);
    var base := Item(fields, None, if value.Some? then value.value.createdAt else None, if value.Some? then value.value.updatedAt else None);
    AssignAllTwo(base, Set(UpdatedAt, eventUpdatedAt), Set(CreatedAt, eventCreatedAt));
    Apply(table, key, ResolveUpdated(value, fields, eventUpdatedAt, eventCreatedAt))
  }

  /** A Deleted event: either nothing changes, or the record at `key` is the
      event's data, deleted at the event's `updatedAt`. */
  function ReplayDeleted<K, F>(table: map<K, Item<F>>, key: K, fields: F, eventUpdatedAt: Option<Time>, eventCreatedAt: Option<Time>): (r: map<K, Item<F>>)
    ensures SkipDeleted(Get(table, key), eventUpdatedAt) ==> r == table
    ensures !SkipDeleted(Get(table, key), eventUpdatedAt) ==> r == table[key := Item(fields, eventUpdatedAt, eventCreatedAt, eventUpdatedAt)]
  {
    var value := Get(table, key);
    var base := Item(fields, eventUpdatedAt, if value.Some? then value.value.createdAt else None, if value.Some? then value.value.updatedAt else None);
    AssignAllTwo(base, Set(UpdatedAt, eventUpdatedAt), Set(CreatedAt, eventCreatedAt));
    Apply(table, key, ResolveDeleted(value, fields, eventUpdatedAt, eventCreatedAt))
  }

  /** An event of one of the three known actions, with the timestamps its rule reads. */
  datatype RuleEvent<F> =
    | Created(fields: F, createdAt: Option<Time>)
    | Updated(fields: F, updatedAt: Option<Time>, createdAt: Option<Time>)
    | Deleted(fields: F, updatedAt: Option<Time>, createdAt: Option<Time>)

  function Replay<K, F>(table: map<K, Item<F>>, key: K, e: RuleEvent<F>): map<K, Item<F>> {
    match e
    case Created(f, c) => ReplayCreated(table, key, f, c)
    case Updated(f, u, c) => ReplayUpdated(table, key, f, u, c)
    case Deleted(f, u, c) => ReplayDeleted(table, key, f, u, c)
  }

  /** The rule for `e` reads the stored item and writes nothing. */
  predicate Skips<K, F>(table: map<K, Item<F>>, key: K, e: RuleEvent<F>) {
    match e
    case Created(_, c) => SkipCreated(Get(table, key), c)
    case Updated(_, u, _) => SkipUpdated(Get(table, key), u)
    case Deleted(_, u, _) => SkipDeleted(Get(table, key), u)
  }

  /** A skipped event leaves the table as it was; any other event stores its
      own data under the key. */
  lemma SkipsIffNoWrite<K, F>(table: map<K, Item<F>>, key: K, e: RuleEvent<F>)
    ensures Skips(table, key, e) ==> Replay(table, key, e) == table
    ensures !Skips(table, key, e) ==> key in Replay(table, key, e) && Replay(table, key, e)[key].fields == e.fields
  {
  }

  /** Replaying an event a second time changes nothing: an event whose
      timestamp equals the watermark it wrote is applied again (the tests are
      strict) and rewrites the very same record. */
  lemma ReplayIdempotent<K, F>(table: map<K, Item<F>>, key: K, e: RuleEvent<F>)
    ensures Replay(Replay(table, key, e), key, e) == Replay(table, key, e)
  {
    var once := Replay(table, key, e);
    if once != table {
      assert key in once;
      match e
      case Created(f, c) =>
        assert once[key] == Item(f, None, c, None);
        assert !SkipCreated(Get(once, key), c);
        assert once[key := Item(f, None, c, None)] == once;
      case Updated(f, u, c) =>
        assert once[key] == Item(f, None, c, u);
        assert !SkipUpdated(Get(once, key), u);
        assert once[key := Item(f, None, c, u)] == once;
      case Deleted(f, u, c) =>
        assert once[key] == Item(f, u, c, u);
        assert !SkipDeleted(Get(once, key), u);
        assert once[key := Item(f, u, c, u)] == once;
    }
  }

  /** Of two Updated events for one key, the later one decides the record
      whichever arrives first, as long as the stored record is not already
      newer than both. */
  lemma UpdatedLastWriteWins<K, F>(table: map<K, Item<F>>, key: K, a: RuleEvent<F>, b: RuleEvent<F>)
    requires a.Updated? && b.Updated?
    requires Earlier(a.updatedAt, b.updatedAt)
    requires !SkipUpdated(Get(table, key), b.updatedAt)
    ensures Replay(Replay(table, key, a), key, b) == Replay(Replay(table, key, b), key, a)
    ensures Replay(Replay(table, key, a), key, b) == table[key := Item(b.fields, None, b.createdAt, b.updatedAt)]
  {
    var afterA := Replay(table, key, a);
    assert !SkipUpdated(Get(afterA, key), b.updatedAt);
    var afterB := Replay(table, key, b);
    assert afterB[key].updatedAt == b.updatedAt;
    assert SkipUpdated(Get(afterB, key), a.updatedAt);
    assert afterA[key := Item(b.fields, None, b.createdAt, b.updatedAt)] == table[key := Item(b.fields, None, b.createdAt, b.updatedAt)];
  }

  /** The deletion watermark: a Deleted event older than a recorded deletion is a no-op. */
  lemma DeletedBeforeDeletionIsNoOp<K, F>(table: map<K, Item<F>>, key: K, e: RuleEvent<F>)
    requires e.Deleted? && key in table && table[key].dateDeleted.Some?
    requires Earlier(e.updatedAt, table[key].dateDeleted)
    ensures Replay(table, key, e) == table
  {
  }

  /** A Created event that is not older than a deleted record brings the
      record back: `update` clears `dateDeleted`. */
  lemma CreatedRevivesDeleted<K, F>(table: map<K, Item<F>>, key: K, e: RuleEvent<F>)
    requires e.Created? && key in table && table[key].dateDeleted.Some?
    requires !Earlier(e.createdAt, table[key].createdAt)
    ensures key in Replay(table, key, e) && Replay(table, key, e)[key].dateDeleted == None
  {
  }

  /** Replay order matters: Created wipes the `updatedAt` watermark, so an
      Updated event older than one already applied wins once a Created event
      arrives between them, whereas in timestamp order the newer data wins. */
  lemma ReplayOrderMatters<K, F>(key: K, older: F, newer: F, created: F)
    requires older != newer
    ensures var inOrder := Replay(Replay(Replay(map[], key, Created(created, Some(0))),
                                         key, Updated(older, Some(1), Some(0))), key, Updated(newer, Some(2), Some(0)));
            var shuffled := Replay(Replay(Replay(map[], key, Updated(newer, Some(2), Some(0))),
                                          key, Created(created, Some(0))), key, Updated(older, Some(1), Some(0)));
            inOrder[key].fields == newer && shuffled[key].fields == older
  {
  }
}

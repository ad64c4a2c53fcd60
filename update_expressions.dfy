/** The `updates` object the restorers build step by step and hand to a
    model as vogels' `expectation`: an update expression whose clauses name
    attributes and values through placeholders, and the two dictionaries
    (`ExpressionAttributeNames`, `ExpressionAttributeValues`) that bind them.
    The expression is kept as its list of clauses; its text is not modelled. */
module UpdateExpressions {
  import opened Wrappers
  import opened Store
  import ReplayRules

  /** `SET #name = :value` or `DELETE #name :value`. */
  datatype Clause = SetClause(name: string, value: string) | DeleteClause(name: string, value: string)

  datatype Updates = Updates(expression: seq<Clause>, names: map<string, string>, values: map<string, Option<Time>>)

  /** The stored attribute an `ExpressionAttributeNames` entry stands for. */
  function AttrOf(attributeName: string): (r: Option<Attr>)
    ensures attributeName == "createdAt" ==> r == Some(CreatedAt)
    ensures attributeName == "updatedAt" ==> r == Some(UpdatedAt)
  {
    assert "createdAt"[0] != "updatedAt"[0];
    if attributeName == "createdAt" then Some(CreatedAt)
    else if attributeName == "updatedAt" then Some(UpdatedAt)
    else None
  }

  /** The name placeholders an expression uses. */
  function NamesUsed(clauses: seq<Clause>): set<string> {
    if clauses == [] then {} else {clauses[0].name} + NamesUsed(clauses[1..])
  }

  /** The value placeholders an expression uses. */
  function ValuesUsed(clauses: seq<Clause>): set<string> {
    if clauses == [] then {} else {clauses[0].value} + ValuesUsed(clauses[1..])
  }

  /** Every placeholder the expression uses is bound, every binding is used
      (the store rejects unused ones), and every name stands for a watermark. */
  ghost predicate WellFormed(u: Updates) {
    && u.names.Keys == NamesUsed(u.expression)
    && u.values.Keys == ValuesUsed(u.expression)
    && forall n | n in u.names :: AttrOf(u.names[n]).Some?
  }

  lemma {:induction false} UsedOfAppend(xs: seq<Clause>, ys: seq<Clause>)
    ensures NamesUsed(xs + ys) == NamesUsed(xs) + NamesUsed(ys)
    ensures ValuesUsed(xs + ys) == ValuesUsed(xs) + ValuesUsed(ys)
  {
    if xs != [] {
      assert (xs + ys)[0] == xs[0] && (xs + ys)[1..] == xs[1..] + ys;
      UsedOfAppend(xs[1..], ys);
    } else {
      assert xs + ys == ys;
    }
  }

  /** The placeholders of `clauses` are all bound in `u`, to watermarks and values. */
  ghost predicate Bound(u: Updates, clauses: seq<Clause>) {
    && NamesUsed(clauses) <= u.names.Keys
    && ValuesUsed(clauses) <= u.values.Keys
    && forall n | n in u.names :: AttrOf(u.names[n]).Some?
  }

  function DenoteClause(u: Updates, c: Clause): Assignment
    requires c.name in u.names && AttrOf(u.names[c.name]).Some? && c.value in u.values
  {
    var a := AttrOf(u.names[c.name]).value;
    if c.SetClause? then Set(a, u.values[c.value]) else Remove(a, u.values[c.value])
  }

  /** What a well-formed `updates` object does to a stored item, clause by clause. */
  function Denote(u: Updates, clauses: seq<Clause>): seq<Assignment>
    requires Bound(u, clauses)
  {
    if clauses == [] then [] else [DenoteClause(u, clauses[0])] + Denote(u, clauses[1..])
  }

  /** worker/restorers/valueRestorer.js:19-33, the Created rule: `SET #createdAt = :createdAt`, and,
      when a record was read, `DELETE #updatedAt :updatedAt` with the stored
      `updatedAt` appended to the expression and bound in both dictionaries. */
  method BuildCreatedUpdates<F>(value: Option<Item<F>>, eventCreatedAt: Option<Time>) returns (updates: Updates)
    ensures WellFormed(updates) && Bound(updates, updates.expression)
    ensures Denote(updates, updates.expression)
         == [Set(CreatedAt, eventCreatedAt)] + (if value.Some? then [Remove(UpdatedAt, value.value.updatedAt)] else [])
         == ReplayRules.CreatedAssignments(value, eventCreatedAt)
  {
    updates := Updates([], map[], map[]);
    updates := updates.(expression := [SetClause("#createdAt", ":createdAt")]);
    updates := updates.(names := map["#createdAt" := "createdAt"]);
    updates := updates.(values := map[":createdAt" := eventCreatedAt]);
    if value.Some? {
      updates := updates.(names := updates.names["#updatedAt" := "updatedAt"]);
      updates := updates.(values := updates.values[":updatedAt" := value.value.updatedAt]);
      updates := updates.(expression := updates.expression + [DeleteClause("#updatedAt", ":updatedAt")]);
    }
    assert "#createdAt"[1] != "#updatedAt"[1] && ":createdAt"[1] != ":updatedAt"[1];
    var setCreated := SetClause("#createdAt", ":createdAt");
    assert [setCreated][1..] == [];
    assert DenoteClause(updates, setCreated) == Set(CreatedAt, eventCreatedAt);
    if value.Some? {
      var deleteUpdated := DeleteClause("#updatedAt", ":updatedAt");
      assert updates.expression == [setCreated] + [deleteUpdated];
      assert [deleteUpdated][1..] == [];
      UsedOfAppend([setCreated], [deleteUpdated]);
      assert updates.expression[1..] == [deleteUpdated];
      assert DenoteClause(updates, deleteUpdated) == Remove(UpdatedAt, value.value.updatedAt);
      assert Denote(updates, [deleteUpdated]) == [Remove(UpdatedAt, value.value.updatedAt)];
    }
  }

  /** The Updated and Deleted rules: `SET #updatedAt = :updatedAt, #createdAt = :createdAt`. */
  method BuildTimestampUpdates(eventUpdatedAt: Option<Time>, eventCreatedAt: Option<Time>) returns (updates: Updates)
    ensures WellFormed(updates) && Bound(updates, updates.expression)
    ensures Denote(updates, updates.expression) == [Set(UpdatedAt, eventUpdatedAt), Set(CreatedAt, eventCreatedAt)]
                                                == ReplayRules.TimestampAssignments(eventUpdatedAt, eventCreatedAt)
  {
    updates := Updates([], map[], map[]);
    updates := updates.(expression := [SetClause("#updatedAt", ":updatedAt"), SetClause("#createdAt", ":createdAt")]);
    updates := updates.(names := map["#updatedAt" := "updatedAt", "#createdAt" := "createdAt"]);
    updates := updates.(values := map[":createdAt" := eventCreatedAt, ":updatedAt" := eventUpdatedAt]);
    assert "#createdAt"[1] != "#updatedAt"[1] && ":createdAt"[1] != ":updatedAt"[1];
    var setUpdated, setCreated := SetClause("#updatedAt", ":updatedAt"), SetClause("#createdAt", ":createdAt");
    assert updates.expression == [setUpdated] + [setCreated];
    assert [setUpdated][1..] == [] && [setCreated][1..] == [];
    UsedOfAppend([setUpdated], [setCreated]);
    assert updates.expression[1..] == [setCreated];
    assert DenoteClause(updates, setUpdated) == Set(UpdatedAt, eventUpdatedAt);
    assert DenoteClause(updates, setCreated) == Set(CreatedAt, eventCreatedAt);
    assert Denote(updates, [setCreated]) == [Set(CreatedAt, eventCreatedAt)];
  }
}

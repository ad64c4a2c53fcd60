/** Items of a key-value table and the effect of one conditional-free
    UpdateItem call as the models issue it (worker/models/valueModel.js and
    worker/models/definitionModel.js hand vogels a data object and an update
    expression): every attribute of the data object is written, then the
    clauses of the update expression are applied to the two watermarks. */
module Store {
  import opened Wrappers

  /** Milliseconds since the epoch, as `new Date(x).getTime()` yields them. */
  type Time = int

  /** A JSON value that the restorers copy without looking into it. */
  type Json = string

  /** The two watermark attributes an update expression names. */
  datatype Attr = CreatedAt | UpdatedAt

  /** A stored record: the entity's own attributes plus the three watermarks.
      `dateDeleted` is null (None) or a date. */
  datatype Item<F> = Item(fields: F, dateDeleted: Option<Time>, createdAt: Option<Time>, updatedAt: Option<Time>)

  /** The data object a model writes: the entity's attributes and `dateDeleted`. */
  datatype Data<F> = Data(fields: F, dateDeleted: Option<Time>)

  /** One clause of an update expression, after its placeholders are resolved:
      `SET #a = :v` or `DELETE #a :v`. */
  datatype Assignment = Set(attr: Attr, time: Option<Time>) | Remove(attr: Attr, time: Option<Time>)

  function Watermark<F>(item: Item<F>, a: Attr): Option<Time> {
    match a
    case CreatedAt => item.createdAt
    case UpdatedAt => item.updatedAt
  }

  function WithWatermark<F>(item: Item<F>, a: Attr, t: Option<Time>): (r: Item<F>)
    ensures Watermark(r, a) == t
    ensures forall b :: b != a ==> Watermark(r, b) == Watermark(item, b)
    ensures r.fields == item.fields && r.dateDeleted == item.dateDeleted
  {
    match a
    case CreatedAt => item.(createdAt := t)
    case UpdatedAt => item.(updatedAt := t)
  }

  /** `SET` overwrites the attribute; `DELETE` takes away the stored value
      named by its operand, so the attribute disappears when it holds
      exactly that value and is left alone otherwise. */
  function Assign<F>(item: Item<F>, s: Assignment): (r: Item<F>)
    ensures r.fields == item.fields && r.dateDeleted == item.dateDeleted
    ensures s.Set? ==> Watermark(r, s.attr) == s.time
    ensures s.Remove? && Watermark(item, s.attr) == s.time ==> Watermark(r, s.attr) == None
    ensures s.Remove? && Watermark(item, s.attr) != s.time ==> r == item
    ensures forall b :: b != s.attr ==> Watermark(r, b) == Watermark(item, b)
  {
    match s
    case Set(a, t) => WithWatermark(item, a, t)
    case Remove(a, t) => if Watermark(item, a) == t then WithWatermark(item, a, None) else item
  }

  /** The clauses of one expression, applied in the order they are written. */
  function AssignAll<F>(item: Item<F>, ss: seq<Assignment>): (r: Item<F>)
    ensures r.fields == item.fields && r.dateDeleted == item.dateDeleted
    decreases |ss|
  {
    if ss == [] then item else AssignAll(Assign(item, ss[0]), ss[1..])
  }

  /** Some clause of `ss` names attribute `a`. */
  predicate Mentions(ss: seq<Assignment>, a: Attr) {
    exists i :: 0 <= i < |ss| && ss[i].attr == a
  }

  /** Clause `i` sets its attribute and no later clause names that attribute. */
  predicate LastSet(ss: seq<Assignment>, i: int) {
    0 <= i < |ss| && ss[i].Set? && !Mentions(ss[i + 1..], ss[i].attr)
  }

  /** A watermark no clause names keeps its value, and the last `SET` on an
      attribute is the value that attribute ends with. */
  lemma {:induction false} AssignAllWatermarks<F>(item: Item<F>, ss: seq<Assignment>)
    ensures forall a :: !Mentions(ss, a) ==> Watermark(AssignAll(item, ss), a) == Watermark(item, a)
    ensures forall i :: LastSet(ss, i) ==> Watermark(AssignAll(item, ss), ss[i].attr) == ss[i].time
    decreases |ss|
  {
    if ss != [] {
      var next := Assign(item, ss[0]);
      AssignAllWatermarks(next, ss[1..]);
      forall a | !Mentions(ss, a)
        ensures Watermark(AssignAll(item, ss), a) == Watermark(item, a)
      {
        assert ss[0].attr != a;
      }
      forall i | LastSet(ss, i)
        ensures Watermark(AssignAll(item, ss), ss[i].attr) == ss[i].time
      {
        if i == 0 {
          assert ss[1..] == ss[i + 1..];
        } else {
          assert ss[1..][i - 1] == ss[i];
          assert ss[1..][i - 1 + 1..] == ss[i + 1..];
          assert LastSet(ss[1..], i - 1);
        }
      }
    }
  }

  lemma AssignAllOne<F>(item: Item<F>, a: Assignment)
    ensures AssignAll(item, [a]) == Assign(item, a)
  {
    assert [a][1..] == [];
  }

  lemma AssignAllTwo<F>(item: Item<F>, a: Assignment, b: Assignment)
    ensures AssignAll(item, [a, b]) == Assign(Assign(item, a), b)
  {
    assert [a, b][1..] == [b];
    AssignAllOne(Assign(item, a), b);
  }

  /** `getAsync(key)`: the stored item, or nothing. */
  function Get<K, F>(table: map<K, Item<F>>, key: K): (r: Option<Item<F>>)
    ensures r.Some? <==> key in table
    ensures r.Some? ==> r.value == table[key]
  {
    if key in table then Some(table[key]) else None
  }

  /** The value attribute `a` of the item under `key` holds, or nothing when
      there is no such item. */
  function StoredWatermark<K, F>(table: map<K, Item<F>>, key: K, a: Attr): Option<Time> {
    if key in table then Watermark(table[key], a) else None
  }

  /** `updateAsync(data, expectation)`: creates the item when it is absent,
      writes the data's attributes (a null `dateDeleted` removes the
      attribute) and keeps the stored watermarks until the expression's
      clauses change them. No other item is touched. */
  function Put<K, F>(table: map<K, Item<F>>, key: K, data: Data<F>, ss: seq<Assignment>): (r: map<K, Item<F>>)
    ensures r.Keys == table.Keys + {key}
    ensures forall k :: k in table && k != key ==> r[k] == table[k]
    ensures r[key].fields == data.fields && r[key].dateDeleted == data.dateDeleted
    ensures forall a :: !Mentions(ss, a) ==> Watermark(r[key], a) == StoredWatermark(table, key, a)
    ensures forall i :: LastSet(ss, i) ==> Watermark(r[key], ss[i].attr) == ss[i].time
  {
    var before := Get(table, key);
    var createdAt := if before.Some? then before.value.createdAt else None;
    var updatedAt := if before.Some? then before.value.updatedAt else None;
    var base := Item(data.fields, data.dateDeleted, createdAt, updatedAt);
    AssignAllWatermarks(base, ss);
    table[key := AssignAll(base, ss)]
  }

  /** The `update` of both models: the data is copied into a fresh object
      whose `dateDeleted` is null, whatever the caller's data carried. */
  function UpdateItem<K, F>(table: map<K, Item<F>>, key: K, data: Data<F>, ss: seq<Assignment>): (r: map<K, Item<F>>)
    ensures r.Keys == table.Keys + {key}
    ensures forall k :: k in table && k != key ==> r[k] == table[k]
    ensures r[key].fields == data.fields && r[key].dateDeleted == None
    ensures forall a :: !Mentions(ss, a) ==> Watermark(r[key], a) == StoredWatermark(table, key, a)
    ensures forall i :: LastSet(ss, i) ==> Watermark(r[key], ss[i].attr) == ss[i].time
  {
    Put(table, key, Data(data.fields, None), ss)
  }

  /** The `delete` of both models: the caller's data is written unchanged,
      so the `dateDeleted` it carries is what gets stored. */
  function DeleteItem<K, F>(table: map<K, Item<F>>, key: K, data: Data<F>, ss: seq<Assignment>): (r: map<K, Item<F>>)
    ensures r.Keys == table.Keys + {key}
    ensures forall k :: k in table && k != key ==> r[k] == table[k]
    ensures r[key].fields == data.fields && r[key].dateDeleted == data.dateDeleted
    ensures forall a :: !Mentions(ss, a) ==> Watermark(r[key], a) == StoredWatermark(table, key, a)
    ensures forall i :: LastSet(ss, i) ==> Watermark(r[key], ss[i].attr) == ss[i].time
  {
    Put(table, key, data, ss)
  }
}

/** worker/models/valueModel.js: attribute values, keyed by `valueKey`
    alone, with the schema rule for that key and the three store calls. */
module ValueModel {
  import opened Wrappers
  import opened Store

  /** The attributes the value restorer copies from an event. */
  datatype ValueFields = ValueFields(
    valueKey: string,
    tenantId: string,
    objectId: string,
    objectType: string,
    values: Json,
    lastUpdatedBy: string,
    version: int)

  type ValueTable = map<string, Item<ValueFields>>

  const MinValueKeyLength := 1
  const MaxValueKeyLength := 128

  // ---------------------------------------------------------------------
  // The key rule: a length bound and /^d2l:[\w-]+:(user|group)+:[\w-]+$/
  // ---------------------------------------------------------------------

  /** `[\w-]`: an ASCII letter or digit, `_` or `-`. */
  predicate IsWordChar(ch: char) {
    ('a' <= ch <= 'z') || ('A' <= ch <= 'Z') || ('0' <= ch <= '9') || ch == '_' || ch == '-'
  }

  /** `[\w-]+` */
  predicate IsWord(s: string) {
    |s| > 0 && forall i | 0 <= i < |s| :: IsWordChar(s[i])
  }

  /** `(user|group)+` */
  predicate IsRoleList(s: string)
    decreases |s|
  {
    || s == "user"
    || s == "group"
    || (|s| > 4 && s[..4] == "user" && IsRoleList(s[4..]))
    || (|s| > 5 && s[..5] == "group" && IsRoleList(s[5..]))
  }

  /** `k` is the regular expression's shape with these three groups. */
  ghost predicate KeyParts(k: string, tenantPart: string, roles: string, idPart: string) {
    k == "d2l:" + tenantPart + ":" + roles + ":" + idPart && IsWord(tenantPart) && IsRoleList(roles) && IsWord(idPart)
  }

  /** The regular expression, as a statement about the key. */
  ghost predicate MatchesValueKeyRegex(k: string) {
    exists tenantPart, roles, idPart :: KeyParts(k, tenantPart, roles, idPart)
  }

  /** The pieces of `s` between its colons. */
  function Split(s: string): (parts: seq<string>)
    ensures |parts| >= 1
  {
    if s == [] then [""]
    else
      var rest := Split(s[1..]);
      if s[0] == ':' then [""] + rest else [[s[0]] + rest[0]] + rest[1..]
  }

  /** The pieces put back together with colons. */
  function Join(parts: seq<string>): string
    requires |parts| >= 1
  {
    if |parts| == 1 then parts[0] else parts[0] + ":" + Join(parts[1..])
  }

  /** Matching the regular expression by splitting the key at its colons:
      none of the three groups can hold a colon. */
  predicate MatchesValueKeyPattern(k: string) {
    var parts := Split(k);
    |parts| == 4 && parts[0] == "d2l" && IsWord(parts[1]) && IsRoleList(parts[2]) && IsWord(parts[3])
  }

  /** The schema's `valueKey` rule, without the `uri` check. */
  predicate ValidValueKey(k: string) {
    MinValueKeyLength <= |k| <= MaxValueKeyLength && MatchesValueKeyPattern(k)
  }

  lemma {:induction false} JoinSplit(s: string)
    ensures Join(Split(s)) == s
    decreases |s|
  {
    if s != [] {
      var rest := Split(s[1..]);
      JoinSplit(s[1..]);
      if s[0] == ':' {
        assert ([""] + rest)[1..] == rest;
      } else if |rest| == 1 {
        assert s == [s[0]] + s[1..];
      } else {
        var parts := [[s[0]] + rest[0]] + rest[1..];
        assert parts[1..] == rest[1..];
        assert Join(rest) == rest[0] + ":" + Join(rest[1..]);
        assert s == [s[0]] + s[1..];
      }
    }
  }

  lemma {:induction false} SplitAtColon(a: string, b: string)
    requires ':' !in a
    ensures Split(a + ":" + b) == [a] + Split(b)
    decreases |a|
  {
    var s := a + ":" + b;
    if a == [] {
      assert s[0] == ':' && s[1..] == b;
    } else {
      assert s[0] == a[0] && s[1..] == a[1..] + ":" + b;
      SplitAtColon(a[1..], b);
      assert [a[0]] + a[1..] == a;
    }
  }

  lemma {:induction false} SplitWithoutColon(a: string)
    requires ':' !in a
    ensures Split(a) == [a]
    decreases |a|
  {
    if a != [] {
      SplitWithoutColon(a[1..]);
      assert [a[0]] + a[1..] == a;
    }
  }

  lemma WordHasNoColon(s: string)
    requires IsWord(s)
    ensures ':' !in s
  {
  }

  lemma {:induction false} RoleListHasNoColon(s: string)
    requires IsRoleList(s)
    ensures ':' !in s
    decreases |s|
  {
    if s == "user" || s == "group" {
    } else if |s| > 4 && s[..4] == "user" && IsRoleList(s[4..]) {
      RoleListHasNoColon(s[4..]);
      assert s == s[..4] + s[4..];
    } else {
      RoleListHasNoColon(s[5..]);
      assert s == s[..5] + s[5..];
    }
  }

  /** Splitting at colons decides exactly the regular expression. */
  lemma ValueKeyPatternIsRegex(k: string)
    ensures MatchesValueKeyPattern(k) <==> MatchesValueKeyRegex(k)
  {
    if MatchesValueKeyPattern(k) {
      var parts := Split(k);
      JoinSplit(k);
      assert parts[1..][1..] == parts[2..] && parts[2..][1..] == parts[3..];
      assert Join(parts[3..]) == parts[3];
      assert Join(parts[2..]) == parts[2] + ":" + parts[3];
      assert Join(parts[1..]) == parts[1] + ":" + (parts[2] + ":" + parts[3]);
      assert k == "d2l" + ":" + (parts[1] + ":" + (parts[2] + ":" + parts[3]));
      assert k == "d2l:" + parts[1] + ":" + parts[2] + ":" + parts[3];
      assert KeyParts(k, parts[1], parts[2], parts[3]);
    }
    if MatchesValueKeyRegex(k) {
      var a, b, c :| KeyParts(k, a, b, c);
      WordHasNoColon(a);
      RoleListHasNoColon(b);
      WordHasNoColon(c);
      assert "d2l"[2] != ':' && "d2l"[1] != ':' && "d2l"[0] != ':';
      assert k == "d2l" + ":" + (a + ":" + (b + ":" + c));
      SplitAtColon("d2l", a + ":" + (b + ":" + c));
      SplitAtColon(a, b + ":" + c);
      SplitAtColon(b, c);
      SplitWithoutColon(c);
      assert Split(k) == ["d2l", a, b, c];
    }
  }

  /** The schema rule in the regular expression's own terms. */
  lemma ValidValueKeyIsRegex(k: string)
    ensures ValidValueKey(k) <==> 1 <= |k| <= 128 && MatchesValueKeyRegex(k)
  {
    ValueKeyPatternIsRegex(k);
  }

  // ---------------------------------------------------------------------
  // The store calls
  // ---------------------------------------------------------------------

  /** Values are keyed by `valueKey` alone: every stored record sits under its own key. */
  ghost predicate KeyedByValueKey(table: ValueTable) {
    forall k | k in table :: table[k].fields.valueKey == k
  }

  /** `readOne(context, valueKey)` */
  function ReadOne(table: ValueTable, valueKey: string): (r: Option<Item<ValueFields>>)
    ensures r.Some? <==> valueKey in table
    ensures r.Some? ==> r.value == table[valueKey]
    ensures KeyedByValueKey(table) && r.Some? ==> r.value.fields.valueKey == valueKey
  {
    Get(table, valueKey)
  }

  /** `update(context, valueData, expectation)`: written under the data's
      own `valueKey`, with `dateDeleted` null whatever the data carried. */
  function Update(table: ValueTable, valueData: Data<ValueFields>, expectation: seq<Assignment>): (r: ValueTable)
    ensures var key := valueData.fields.valueKey;
      && r.Keys == table.Keys + {key}
      && (forall k | k in table && k != key :: r[k] == table[k])
      && r[key].fields == valueData.fields && r[key].dateDeleted == None
    ensures var key := valueData.fields.valueKey;
      forall a :: !Mentions(expectation, a) ==> Watermark(r[key], a) == StoredWatermark(table, key, a)
    ensures var key := valueData.fields.valueKey;
      forall i :: LastSet(expectation, i) ==> Watermark(r[key], expectation[i].attr) == expectation[i].time
    ensures KeyedByValueKey(table) ==> KeyedByValueKey(r)
  {
    UpdateItem(table, valueData.fields.valueKey, valueData, expectation)
  }

  /** `delete(context, valueData, expectation)`: the data is written as it
      is, so the `dateDeleted` the caller set is stored. */
  function Delete(table: ValueTable, valueData: Data<ValueFields>, expectation: seq<Assignment>): (r: ValueTable)
    ensures var key := valueData.fields.valueKey;
      && r.Keys == table.Keys + {key}
      && (forall k | k in table && k != key :: r[k] == table[k])
      && r[key].fields == valueData.fields && r[key].dateDeleted == valueData.dateDeleted
    ensures var key := valueData.fields.valueKey;
      forall a :: !Mentions(expectation, a) ==> Watermark(r[key], a) == StoredWatermark(table, key, a)
    ensures var key := valueData.fields.valueKey;
      forall i :: LastSet(expectation, i) ==> Watermark(r[key], expectation[i].attr) == expectation[i].time
    ensures KeyedByValueKey(table) ==> KeyedByValueKey(r)
  {
    DeleteItem(table, valueData.fields.valueKey, valueData, expectation)
  }
}

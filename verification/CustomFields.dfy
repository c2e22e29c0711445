/**
 Custom field values of tasks, stored sparsely: a row where a value was set, the
 definition's default elsewhere.
 */
module CustomFields {
  import opened Prelude

  type TaskId = nat
  type DefId = nat
  type FieldKey = string

  datatype FieldType = Text | TextLong | Integer | Decimal | Boolean | Date | DateAndTime | Url | Json

  // JSON values; lists and objects are told apart from the rest only.
  datatype Value = Null | Str(s: string) | Bool(b: bool) | Int(i: int) | Float(f: real) | Container(id: nat)

  // Date and URL parsing and regular expressions are not looked into.
  datatype Library = Library(isDate: string -> bool, isDateTime: string -> bool, isHttpUrl: string -> bool,
                             compiles: string -> bool, fullMatch: (string, string) -> bool)

  datatype Definition = Definition(id: DefId, fieldType: FieldType, regex: Option<string>, required: bool, default_: Value)

  // The definitions bound to a board. Ids are primary keys.
  type Definitions = map<FieldKey, Definition>

  type Rows = map<(TaskId, DefId), Value>

  // ---------- validation ----------

  predicate IsStringType(fieldType: FieldType) {
    fieldType == Text || fieldType == TextLong || fieldType == Date || fieldType == DateAndTime || fieldType == Url
  }

  predicate HasType(lib: Library, fieldType: FieldType, value: Value) {
    match fieldType
    case Text => value.Str?
    case TextLong => value.Str?
    case Integer => value.Int?
    case Decimal => value.Int? || value.Float?
    case Boolean => value.Bool?
    case Date => value.Str? && lib.isDate(value.s)
    case DateAndTime => value.Str? && lib.isDateTime(value.s)
    case Url => value.Str? && lib.isHttpUrl(value.s)
    case Json => value.Container?
  }

  predicate ValidValue(lib: Library, fieldType: FieldType, regex: Option<string>, value: Value) {
    || value.Null?
    || (&& HasType(lib, fieldType, value)
        && (regex.Some? && IsStringType(fieldType) ==>
              value.Str? && lib.compiles(regex.value) && lib.fullMatch(regex.value, value.s)))
  }

  // Which values a field takes, by the kind of the value.
  predicate Takes(lib: Library, fieldType: FieldType, regex: Option<string>, value: Value) {
    match value
    case Null => true
    case Bool(_) => fieldType == Boolean
    case Int(_) => fieldType == Integer || fieldType == Decimal
    case Float(_) => fieldType == Decimal
    case Container(_) => fieldType == Json
    case Str(s) =>
      && fieldType in {Text, TextLong, Date, DateAndTime, Url}
      && (fieldType == Date ==> lib.isDate(s)) && (fieldType == DateAndTime ==> lib.isDateTime(s))
      && (fieldType == Url ==> lib.isHttpUrl(s))
      && (regex.Some? ==> lib.compiles(regex.value) && lib.fullMatch(regex.value, s))
  }

  lemma TakesMeaning(lib: Library, fieldType: FieldType, regex: Option<string>, value: Value)
    ensures ValidValue(lib, fieldType, regex, value) <==> Takes(lib, fieldType, regex, value)
  {
    match fieldType {
      case Text =>
      case TextLong =>
      case Integer =>
      case Decimal =>
      case Boolean =>
      case Date =>
      case DateAndTime =>
      case Url =>
      case Json =>
    }
  }

  predicate ValidDefinition(lib: Library, d: Definition) {
    RegexAllowed(d) && ValidValue(lib, d.fieldType, d.regex, d.default_)
  }

  predicate RegexAllowed(d: Definition) {
    d.regex.Some? ==> IsStringType(d.fieldType)
  }

  predicate DefinitionsOk(lib: Library, defs: Definitions) {
    && (forall k :: k in defs ==> ValidDefinition(lib, defs[k]))
    && DistinctIds(defs)
  }

  predicate DistinctIds(defs: Definitions) {
    forall k, m :: k in defs && m in defs && defs[k].id == defs[m].id ==> k == m
  }

  // ---------- the total map the rows stand for ----------

  function ReadValue(defs: Definitions, rows: Rows, t: TaskId, k: FieldKey): Value
    requires k in defs
  {
    if (t, defs[k].id) in rows then rows[(t, defs[k].id)] else defs[k].default_
  }

  function ReadAll(defs: Definitions, rows: Rows, t: TaskId): map<FieldKey, Value> {
    map k | k in defs :: ReadValue(defs, rows, t, k)
  }

  // What a request makes of a field: the sent value, else what is there (on an update), else
  // the default. Sending null asks for null here, which a required field refuses.
  function Effective(defs: Definitions, rows: Rows, t: TaskId, values: map<FieldKey, Value>, k: FieldKey): Value
    requires k in defs
  {
    if k in values then values[k] else ReadValue(defs, rows, t, k)
  }

  predicate IsRefused(lib: Library, defs: Definitions, rows: Rows, t: TaskId, values: map<FieldKey, Value>) {
    || (exists k :: k in values && k !in defs)
    || (exists k :: k in values && k in defs && !ValidValue(lib, defs[k].fieldType, defs[k].regex, values[k]))
    || (exists k :: k in defs && defs[k].required && Effective(defs, rows, t, values, k).Null?)
  }

  // A request is accepted exactly when it names fields of the board only, each takes the
  // value sent for it, and no required field is left with null.
  lemma AcceptedIff(lib: Library, defs: Definitions, rows: Rows, t: TaskId, values: map<FieldKey, Value>)
    ensures !IsRefused(lib, defs, rows, t, values) <==>
              && values.Keys <= defs.Keys
              && (forall k :: k in values && k in defs ==> Takes(lib, defs[k].fieldType, defs[k].regex, values[k]))
              && forall k :: k in defs && defs[k].required ==>
                   !(if k in values then values[k] else if (t, defs[k].id) in rows then rows[(t, defs[k].id)] else defs[k].default_).Null?
  {
    forall k | k in values && k in defs
      ensures ValidValue(lib, defs[k].fieldType, defs[k].regex, values[k]) <==> Takes(lib, defs[k].fieldType, defs[k].regex, values[k])
    {
      TakesMeaning(lib, defs[k].fieldType, defs[k].regex, values[k]);
    }
    hide ValidValue, Takes;
    assert forall k :: k in defs ==>
      Effective(defs, rows, t, values, k) ==
        if k in values then values[k] else if (t, defs[k].id) in rows then rows[(t, defs[k].id)] else defs[k].default_;
  }

  ghost predicate NoRows(rows: Rows, t: TaskId) {
    forall d: DefId :: (t, d) !in rows
  }

  // Rows with some entries of a task written: a null takes the row away.
  function Written(rows: Rows, t: TaskId, entries: map<DefId, Value>): Rows {
    map at | at in rows.Keys + (set d | d in entries :: (t, d)) && !(at.0 == t && at.1 in entries && entries[at.1].Null?)
      :: if at.0 == t && at.1 in entries then entries[at.1] else rows[at]
  }

  // Some of the values, keyed by the id of their definition.
  ghost function Part(defs: Definitions, values: map<FieldKey, Value>, keys: set<FieldKey>): map<DefId, Value>
    requires keys <= values.Keys && values.Keys <= defs.Keys && DistinctIds(defs)
  {
    map k | k in keys :: defs[k].id := values[k]
  }

  ghost function ById(defs: Definitions, values: map<FieldKey, Value>): map<DefId, Value>
    requires values.Keys <= defs.Keys && DistinctIds(defs)
  {
    Part(defs, values, values.Keys)
  }

  lemma PartOne(defs: Definitions, values: map<FieldKey, Value>, keys: set<FieldKey>, k: FieldKey)
    requires keys <= values.Keys && values.Keys <= defs.Keys && DistinctIds(defs) && k in values && k !in keys
    ensures Part(defs, values, keys + {k}) == Part(defs, values, keys)[defs[k].id := values[k]]
    ensures defs[k].id !in Part(defs, values, keys)
  {
    var next, expected := Part(defs, values, keys + {k}), Part(defs, values, keys)[defs[k].id := values[k]];
    assert next.Keys == expected.Keys;
  }

  ghost function EffectiveAll(defs: Definitions, rows: Rows, t: TaskId, values: map<FieldKey, Value>): map<FieldKey,
                              Value> {
    map k | k in defs :: Effective(defs, rows, t, values, k)
  }

  lemma WrittenAt(rows: Rows, t: TaskId, entries: map<DefId, Value>, d: DefId, value: Value, at: (TaskId, DefId))
    ensures var before, next := Written(rows, t, entries), Written(rows, t, entries[d := value]);
            && (at in next <==> if at == (t, d) then !value.Null? else at in before)
            && (at in next ==> next[at] == if at == (t, d) then value else before[at])
  {
  }

  lemma WrittenOne(rows: Rows, t: TaskId, entries: map<DefId, Value>, d: DefId, value: Value)
    ensures Written(rows, t, entries[d := value])
            == if value.Null? then Written(rows, t, entries) - {(t, d)} else Written(rows, t, entries)[(t, d) := value]
  {
    var before, next := Written(rows, t, entries), Written(rows, t, entries[d := value]);
    forall at: (TaskId, DefId)
      ensures at in next <==> if at == (t, d) then !value.Null? else at in before
      ensures at in next ==> next[at] == if at == (t, d) then value else before[at]
    {
      WrittenAt(rows, t, entries, d, value, at);
    }
    hide Written;
  }

  // Writing one more of the values.
  lemma WriteStep(defs: Definitions, values: map<FieldKey, Value>, rows: Rows, t: TaskId, keys: set<FieldKey>,
                  todo: set<FieldKey>,
                  k: FieldKey)
    requires todo <= keys <= values.Keys <= defs.Keys && DistinctIds(defs) && k in todo
    ensures var before := Written(rows, t, Part(defs, values, keys - todo));
            Written(rows, t, Part(defs, values, keys - (todo - {k})))
            == if values[k].Null? then before - {(t, defs[k].id)} else before[(t, defs[k].id) := values[k]]
  {
    hide Part, Written, DistinctIds;
    PartOne(defs, values, keys - todo, k);
    WrittenOne(rows, t, Part(defs, values, keys - todo), defs[k].id, values[k]);
    assert keys - todo + {k} == keys - (todo - {k});
  }

  lemma StartPart(defs: Definitions, values: map<FieldKey, Value>, rows: Rows, t: TaskId)
    requires values.Keys <= defs.Keys && DistinctIds(defs)
    ensures forall keys :: keys == values.Keys ==> Written(rows, t, Part(defs, values, keys - keys)) == rows
  {
    assert values.Keys - values.Keys == {};
    assert Part(defs, values, {}) == map[];
    WrittenNone(rows, t);
  }

  lemma NotThere(defs: Definitions, values: map<FieldKey, Value>, rows: Rows, t: TaskId, keys: set<FieldKey>,
                 k: FieldKey)
    requires keys <= values.Keys && values.Keys <= defs.Keys && DistinctIds(defs) && k in values && k !in keys && NoRows(rows, t)
    ensures var before := Written(rows, t, Part(defs, values, keys));
            before - {(t, defs[k].id)} == before
  {
    PartOne(defs, values, keys, k);
    hide Part, DistinctIds;
    assert (t, defs[k].id) !in Written(rows, t, Part(defs, values, keys));
  }

  lemma WrittenNone(rows: Rows, t: TaskId)
    ensures Written(rows, t, map[]) == rows
  {
    assert Written(rows, t, map[]).Keys == rows.Keys;
  }

  class FieldStore {
    const lib: Library
    const defs: Definitions
    var rows: Rows

    constructor (lib: Library, defs: Definitions)
      ensures this.lib == lib && this.defs == defs && rows == map[]
    {
      this.lib, this.defs, rows := lib, defs, map[];
    }

    // The three checks both requests make.
    method Check(t: TaskId, values: map<FieldKey, Value>, effective: map<FieldKey, Value>) returns (refused: bool)
      requires effective == EffectiveAll(defs, rows, t, values)
      ensures refused == IsRefused(lib, defs, rows, t, values)
    {
      hide ValidValue, Effective;
      var unknown := values.Keys - defs.Keys;
      if unknown != {} {
        var k :| k in unknown;
        assert k in values && k !in defs;
        return true;
      }
      assert values.Keys <= defs.Keys by {
        assert forall k :: k in values.Keys ==> k !in unknown;
      }
      var invalid := InvalidKey(values);
      if invalid.Some? {
        return true;
      }
      var missing := set k | k in defs && defs[k].required && effective[k].Null?;
      if missing != {} {
        var k :| k in missing;
        assert Effective(defs, rows, t, values, k).Null?;
        return true;
      }
      forall k | k in defs && defs[k].required
        ensures !Effective(defs, rows, t, values, k).Null?
      {
        assert effective[k] == Effective(defs, rows, t, values, k);
        assert k !in missing;
      }
      return false;
    }

    method InvalidKey(values: map<FieldKey, Value>) returns (invalid: Option<FieldKey>)
      requires values.Keys <= defs.Keys
      ensures invalid.Some? ==> invalid.value in values
                                && !ValidValue(lib, defs[invalid.value].fieldType, defs[invalid.value].regex, values[invalid.value])
      ensures invalid.None? ==> forall k :: k in values ==> ValidValue(lib, defs[k].fieldType, defs[k].regex, values[k])
    {
      hide ValidValue;
      var todo := values.Keys;
      while todo != {}
        invariant todo <= values.Keys
        invariant forall k :: k in values.Keys - todo ==> ValidValue(lib, defs[k].fieldType, defs[k].regex, values[k])
        decreases todo
      {
        var k :| k in todo;
        if !ValidValue(lib, defs[k].fieldType, defs[k].regex, values[k]) {
          return Some(k);
        }
        todo := todo - {k};
      }
      return None;
    }

    // A create writes every value that is not null, defaults included.
    method SetForCreate(t: TaskId, values: map<FieldKey, Value>) returns (refused: bool)
      requires DefinitionsOk(lib, defs) && NoRows(rows, t)
      modifies this
      ensures refused == IsRefused(lib, defs, old(rows), t, values)
      ensures rows == if refused then old(rows)
                      else Written(old(rows), t, ById(defs, EffectiveAll(defs, old(rows), t, values)))
    {
      hide ValidDefinition, IsRefused, Written;
      var effective := map k | k in defs :: if k in values then values[k] else defs[k].default_;
      assert effective == EffectiveAll(defs, rows, t, values);
      refused := Check(t, values, effective);
      if refused {
        return;
      }
      AddRows(t, effective);
    }

    // A row for each value that is not null, in a task without rows.
    method AddRows(t: TaskId, effective: map<FieldKey, Value>)
      requires DistinctIds(defs) && NoRows(rows, t) && effective.Keys == defs.Keys
      modifies this
      ensures rows == Written(old(rows), t, ById(defs, effective))
    {
      hide DistinctIds, Part, Written;
      StartPart(defs, effective, rows, t);
      var todo := defs.Keys;
      while todo != {}
        invariant todo <= defs.Keys && rows == Written(old(rows), t, Part(defs, effective, defs.Keys - todo))
        decreases todo
      {
        var k :| k in todo;
        WriteStep(defs, effective, old(rows), t, defs.Keys, todo, k);
        NotThere(defs, effective, old(rows), t, defs.Keys - todo, k);
        todo := todo - {k};
        var value := effective[k];
        if value.Null? {
          continue;
        }
        rows := rows[(t, defs[k].id) := value];
      }
      assert defs.Keys - todo == effective.Keys;
    }

    // An update writes what was sent, and a null deletes the row.
    method SetForUpdate(t: TaskId, values: map<FieldKey, Value>) returns (refused: bool)
      requires DefinitionsOk(lib, defs)
      modifies this
      ensures refused == IsRefused(lib, defs, old(rows), t, values)
      ensures !refused ==> values.Keys <= defs.Keys
      ensures rows == if refused then old(rows) else Written(old(rows), t, ById(defs, values))
    {
      hide ValidDefinition, Written;
      ghost var before := rows;
      var effective := map k | k in defs ::
        if k in values then values[k]
        else if (t, defs[k].id) in rows then rows[(t, defs[k].id)] else defs[k].default_;
      assert effective == EffectiveAll(defs, rows, t, values);
      refused := Check(t, values, effective);
      if refused {
        return;
      }
      assert values.Keys <= defs.Keys;
      WriteRows(t, values);
    }

    method WriteRows(t: TaskId, values: map<FieldKey, Value>)
      requires DistinctIds(defs) && values.Keys <= defs.Keys
      modifies this
      ensures rows == Written(old(rows), t, ById(defs, values))
    {
      hide DistinctIds, Part, Written;
      StartPart(defs, values, rows, t);
      var todo := values.Keys;
      while todo != {}
        invariant todo <= values.Keys
        invariant rows == Written(old(rows), t, Part(defs, values, values.Keys - todo))
        decreases todo
      {
        var k :| k in todo;
        WriteStep(defs, values, old(rows), t, values.Keys, todo, k);
        todo := todo - {k};
        var at, value := (t, defs[k].id), values[k];
        if value.Null? {
          rows := rows - {at};
          continue;
        }
        rows := rows[at := value];
      }
      assert values.Keys - todo == values.Keys;
    }

    method ReadTask(t: TaskId) returns (values: map<FieldKey, Value>)
      requires DefinitionsOk(lib, defs)
      ensures values == ReadAll(defs, rows, t)
    {
      hide ValidDefinition;
      values := map k | k in defs :: defs[k].default_;
      // The rows of the task for these definitions.
      var keys := set k | k in defs && (t, defs[k].id) in rows;
      var todo := keys;
      while todo != {}
        invariant todo <= keys && values.Keys == defs.Keys
        invariant forall k :: k in defs ==> values[k] == if k in keys - todo then rows[(t, defs[k].id)] else defs[k].default_
        decreases todo
      {
        var k :| k in todo;
        todo := todo - {k};
        values := values[k := rows[(t, defs[k].id)]];
      }
    }
  }

  // ---------- what reads see ----------

  lemma {:induction false} ReadWritten(lib: Library, defs: Definitions, rows: Rows, t: TaskId, values: map<FieldKey,
                                       Value>,
                                       x: TaskId, k: FieldKey)
    requires DefinitionsOk(lib, defs) && values.Keys <= defs.Keys && k in defs
    ensures ReadValue(defs, Written(rows, t, ById(defs, values)), x, k)
            == if x == t && k in values then (if values[k].Null? then defs[k].default_ else values[k])
               else ReadValue(defs, rows, x, k)
  {
    hide ValidDefinition;
    var entries := ById(defs, values);
    if k in values {
      assert defs[k].id in entries && entries[defs[k].id] == values[k];
    } else {
      assert defs[k].id !in entries;
    }
    if x == t && k in values {
      assert (t, defs[k].id) in rows.Keys + (set d | d in entries :: (t, d));
    }
  }

  // What a field reads as after a successful create or update of a task.
  function ReadBack(defs: Definitions, rows: Rows, t: TaskId, values: map<FieldKey, Value>, x: TaskId,
                    k: FieldKey): Value
    requires k in defs
  {
    if x == t && k in values then (if values[k].Null? then defs[k].default_ else values[k])
    else ReadValue(defs, rows, x, k)
  }

  // The value sent, the default where null was sent, and as before elsewhere, be it the
  // default of a new task or another task altogether.
  lemma {:induction false} ReadAfterCreate(lib: Library, defs: Definitions, rows: Rows, t: TaskId,
                                           values: map<FieldKey, Value>,
                                           x: TaskId, k: FieldKey)
    requires DefinitionsOk(lib, defs) && NoRows(rows, t) && k in defs
    ensures ReadValue(defs, Written(rows, t, ById(defs, EffectiveAll(defs, rows, t, values))), x, k)
            == ReadBack(defs, rows, t, values, x, k)
    ensures ReadValue(defs, rows, t, k) == defs[k].default_
  {
    hide Written, ValidDefinition;
    ReadWritten(lib, defs, rows, t, EffectiveAll(defs, rows, t, values), x, k);
  }

  // ---------- reachable states ----------

  // Required fields read as something, and whatever a field reads as fits its definition.
  ghost predicate TaskOk(lib: Library, defs: Definitions, rows: Rows, t: TaskId) {
    forall k :: k in defs ==>
      && (defs[k].required ==> !ReadValue(defs, rows, t, k).Null?)
      && ValidValue(lib, defs[k].fieldType, defs[k].regex, ReadValue(defs, rows, t, k))
  }

  lemma {:induction false} RequestIsOk(lib: Library, defs: Definitions, rows: Rows, t: TaskId, values: map<FieldKey,
                                       Value>, after: Rows)
    requires DefinitionsOk(lib, defs) && !IsRefused(lib, defs, rows, t, values)
    requires NoRows(rows, t) || TaskOk(lib, defs, rows, t)
    requires forall x, k :: k in defs ==> ReadValue(defs, after, x, k) == ReadBack(defs, rows, t, values, x, k)
    ensures TaskOk(lib, defs, after, t)
    ensures forall x :: x != t && TaskOk(lib, defs, rows, x) ==> TaskOk(lib, defs, after, x)
  {
    hide ValidValue;
  }

  datatype Request = Create(t: TaskId, values: map<FieldKey, Value>) | Update(t: TaskId, values: map<FieldKey, Value>)

  // Over every sequence of requests, each for a new or an existing task, all tasks stay so.
  method ServeRequests(lib: Library, defs: Definitions, requests: seq<Request>) returns (rows: Rows,
                       created: set<TaskId>)
    requires DefinitionsOk(lib, defs)
    ensures forall t :: t in created ==> TaskOk(lib, defs, rows, t)
    ensures forall t, d :: (t, d) in rows ==> t in created
  {
    var store := new FieldStore(lib, defs);
    created := {};
    for i := 0 to |requests|
      invariant store.lib == lib && store.defs == defs
      invariant forall t :: t in created ==> TaskOk(lib, defs, store.rows, t)
      invariant forall t, d :: (t, d) in store.rows ==> t in created
    {
      hide TaskOk, IsRefused, ValidDefinition, ReadValue, EffectiveAll, ById;
      ghost var before := store.rows;
      var request := requests[i];
      if request.Create? && request.t !in created {
        var refused := store.SetForCreate(request.t, request.values);
        if !refused {
          forall x, k | k in defs
            ensures ReadValue(defs, store.rows, x, k) == ReadBack(defs, before, request.t, request.values, x, k)
          {
            ReadAfterCreate(lib, defs, before, request.t, request.values, x, k);
          }
          RequestIsOk(lib, defs, before, request.t, request.values, store.rows);
          created := created + {request.t};
        }
      } else if request.Update? && request.t in created {
        var refused := store.SetForUpdate(request.t, request.values);
        if !refused {
          forall x, k | k in defs
            ensures ReadValue(defs, store.rows, x, k) == ReadBack(defs, before, request.t, request.values, x, k)
          {
            ReadWritten(lib, defs, before, request.t, request.values, x, k);
          }
          RequestIsOk(lib, defs, before, request.t, request.values, store.rows);
        }
      }
    }
    rows := store.rows;
  }
}

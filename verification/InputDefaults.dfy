/**
 Filling an Actor's input with its schema's defaults (`src/services/input-schema.ts`).

 A JSON object is a map; a key whose value is undefined is a key that is not there. Of a schema only what the
 merge reads is kept: a field's default, the fields below it and its items.
 */
module InputDefaults {
  import opened ObjectNames
  import opened Wrappers

  type Key = string
  type Fields = map<Key, Json>

  datatype Json =
    | Null
    | Bool(value: bool)
    | Num(number: real)
    | Str(text: string)
    | Arr(items: seq<Json>)
    | Obj(fields: map<Key, Json>)

  /** `NotASchema` is any value that is no plain object, or no value; `properties` is empty where there are none. */
  datatype Schema =
    | NotASchema
    | Field(default: Option<Json>, properties: map<Key, Schema>, items: Schema)

  function Properties(schema: Schema): map<Key, Schema> {
    if schema.Field? then schema.properties else map[]
  }

  function FieldSchema(schema: Schema, key: Key): Schema {
    if key in Properties(schema) then Properties(schema)[key] else NotASchema
  }

  function Get(fields: Fields, key: Key): Option<Json> {
    if key in fields then Some(fields[key]) else None
  }

  // ---------- Extracting defaults ----------

  /** Key by key the overrides win; two objects are merged in turn. */
  function DeepMerge(base: Fields, overrides: Json): Fields
    requires overrides.Obj?
    decreases overrides
  {
    map key | key in base.Keys + overrides.fields.Keys ::
      if key !in overrides.fields then base[key]
      else if key in base && base[key].Obj? && overrides.fields[key].Obj?
      then Obj(DeepMerge(base[key].fields, overrides.fields[key]))
      else overrides.fields[key]
  }

  function ExtractDefaults(schema: Schema): Option<Json>
    decreases schema
  {
    if schema.NotASchema? then None
    else
      var nested := map key | key in schema.properties && ExtractDefaults(schema.properties[key]).Some?
                      :: ExtractDefaults(schema.properties[key]).value;
      if schema.default.Some? && schema.default.value.Obj? then Some(Obj(DeepMerge(nested, schema.default.value)))
      else if nested != map[] then Some(Obj(nested))
      else schema.default
  }

  function NestedDefaults(schema: Schema): Fields {
    map key | key in Properties(schema) && ExtractDefaults(Properties(schema)[key]).Some?
      :: ExtractDefaults(Properties(schema)[key]).value
  }

  // ---------- Filling ----------

  function Digits(n: nat): string {
    if n < 10 then [('0' as int + n) as char] else Digits(n / 10) + [('0' as int + n % 10) as char]
  }

  function Indexed(items: seq<Json>): Fields {
    if items == [] then map[] else Indexed(items[..|items| - 1])[Digits(|items| - 1) := items[|items| - 1]]
  }

  function Characters(s: string): seq<Json> {
    seq(|s|, i requires 0 <= i < |s| => Str([s[i]]))
  }

  /** With the length, which is not enumerable but answers where the schema asks for a field of that name. */
  function WithLength(fields: Fields, length: nat, schema: Schema): Fields {
    if "length" in Properties(schema) then fields["length" := Num(length as real)] else fields
  }

  /** A default read as a record: of a string or an array, its elements by index and its length. */
  function AsRecord(value: Option<Json>, schema: Schema): Fields {
    match value
    case Some(Obj(fields)) => fields
    case Some(Arr(items)) => WithLength(Indexed(items), |items|, schema)
    case Some(Str(s)) => WithLength(Indexed(Characters(s)), |s|, schema)
    case _ => map[]
  }

  /** The defaults a present nested object is filled with: none, except in an array item. */
  function DefaultsBelow(default: Option<Json>, field: Schema, fill: bool): Fields {
    if !fill then map[]
    else if default.Some? && default.value.Obj? then default.value.fields
    else AsRecord(ExtractDefaults(field), field)
  }

  function ItemSchema(field: Schema): Schema {
    if field.Field? then field.items else NotASchema
  }

  /** What becomes of a present value. */
  function Filled(value: Json, default: Option<Json>, field: Schema, fill: bool): Json
    decreases value, 2
  {
    match value
    case Obj(_) => Obj(Assigned(value, DefaultsBelow(default, field, fill), field, false))
    case Arr(items) =>
      var itemDefaults := ExtractDefaults(ItemSchema(field));
      if itemDefaults.Some? && itemDefaults.value.Obj?
      then Arr(FilledItems(items, itemDefaults.value.fields, ItemSchema(field)))
      else value
    case _ => value
  }

  function FilledItems(items: seq<Json>, defaults: Fields, schema: Schema): (r: seq<Json>)
    ensures |r| == |items|
    decreases items
  {
    seq(|items|, i requires 0 <= i < |items| =>
      if items[i].Obj? then Obj(Assigned(items[i], defaults, schema, true)) else items[i])
  }

  /** `assignRecursively`: missing keys get their default, present ones are filled where the schema knows them. */
  function Assigned(target: Json, defaults: Fields, schema: Schema, fill: bool): Fields
    requires target.Obj?
    decreases target, 1
  {
    map key | key in target.fields.Keys + defaults.Keys && (key in target.fields || !IsInherited(key)) ::
      if key !in target.fields then defaults[key]
      else if key in defaults || key in Properties(schema)
      then Filled(target.fields[key], Get(defaults, key), FieldSchema(schema, key), fill)
      else target.fields[key]
  }

  function AssignDefaults(values: Fields, schema: Schema): Fields {
    Assigned(Obj(values), NestedDefaults(schema), schema, false)
  }

  // ---------- The caller's values survive ----------

  /** Whatever `before` holds, at every path, `after` holds too; arrays keep their length. */
  ghost predicate Extends(before: Json, after: Json)
    decreases before
  {
    match before
    case Obj(fields) => after.Obj? && forall key :: key in fields ==>
      key in after.fields && Extends(fields[key], after.fields[key])
    case Arr(items) => after.Arr? && |after.items| == |items| && forall i :: 0 <= i < |items| ==>
      Extends(items[i], after.items[i])
    case _ => after == before
  }

  lemma {:induction false} ExtendsItself(value: Json)
    ensures Extends(value, value)
    decreases value
  {
    match value
    case Obj(fields) =>
      forall key | key in fields ensures Extends(fields[key], fields[key]) {
        ExtendsItself(fields[key]);
      }
    case Arr(items) =>
      forall i | 0 <= i < |items| ensures Extends(items[i], items[i]) {
        ExtendsItself(items[i]);
      }
    case _ =>
  }

  lemma {:induction false} FilledExtends(value: Json, default: Option<Json>, field: Schema, fill: bool)
    ensures Extends(value, Filled(value, default, field, fill))
    decreases value, 2
  {
    match value
    case Obj(_) => AssignedExtends(value, DefaultsBelow(default, field, fill), field, false);
    case Arr(items) =>
      var itemDefaults := ExtractDefaults(ItemSchema(field));
      if itemDefaults.Some? && itemDefaults.value.Obj? {
        forall i | 0 <= i < |items|
          ensures Extends(items[i], FilledItems(items, itemDefaults.value.fields, ItemSchema(field))[i])
        {
          if items[i].Obj? {
            AssignedExtends(items[i], itemDefaults.value.fields, ItemSchema(field), true);
          } else {
            ExtendsItself(items[i]);
          }
        }
      } else {
        ExtendsItself(value);
      }
    case _ =>
  }

  lemma {:induction false} AssignedExtends(target: Json, defaults: Fields, schema: Schema, fill: bool)
    requires target.Obj?
    ensures Extends(target, Obj(Assigned(target, defaults, schema, fill)))
    decreases target, 1
  {
    var filled := Assigned(target, defaults, schema, fill);
    forall key | key in target.fields ensures key in filled && Extends(target.fields[key], filled[key]) {
      if key in defaults || key in Properties(schema) {
        FilledExtends(target.fields[key], Get(defaults, key), FieldSchema(schema, key), fill);
      } else {
        ExtendsItself(target.fields[key]);
      }
    }
  }

  // ---------- A present nested object gains no keys ----------

  /** The same keys in every nested object, arrays aside. */
  ghost predicate SameKeys(before: Json, after: Json)
    decreases before
  {
    match before
    case Obj(fields) => after.Obj? && after.fields.Keys == fields.Keys && forall key :: key in fields ==>
      SameKeys(fields[key], after.fields[key])
    case Arr(_) => after.Arr?
    case _ => after == before
  }

  lemma {:induction false} SameKeysItself(value: Json)
    ensures SameKeys(value, value)
    decreases value
  {
    if value.Obj? {
      forall key | key in value.fields ensures SameKeys(value.fields[key], value.fields[key]) {
        SameKeysItself(value.fields[key]);
      }
    }
  }

  lemma {:induction false} PresentKeepsKeys(value: Json, default: Option<Json>, field: Schema)
    ensures SameKeys(value, Filled(value, default, field, false))
    decreases value
  {
    if value.Obj? {
      var filled := Assigned(value, map[], field, false);
      assert filled.Keys == value.fields.Keys;
      forall key | key in value.fields ensures SameKeys(value.fields[key], filled[key]) {
        if key in Properties(field) {
          PresentKeepsKeys(value.fields[key], None, FieldSchema(field, key));
        } else {
          SameKeysItself(value.fields[key]);
        }
      }
    }
  }

  /**
   For every input and schema: every value the caller supplied survives at every path, nested objects outside
   arrays keep exactly their keys, and the top level gains just the schema's fields that have a default,
   with that default, except under a name every object inherits.
   */
  lemma DefaultsOnlyExtend(values: Fields, schema: Schema)
    ensures Extends(Obj(values), Obj(AssignDefaults(values, schema)))
    ensures forall key :: key in values ==>
      key in AssignDefaults(values, schema) && SameKeys(values[key], AssignDefaults(values, schema)[key])
    ensures forall key :: key !in values ==>
      Get(AssignDefaults(values, schema), key)
      == if IsInherited(key) then None else ExtractDefaults(FieldSchema(schema, key))
  {
    hide IsInherited, ExtractDefaults, SameKeys, Extends;
    var defaults := NestedDefaults(schema);
    AssignedExtends(Obj(values), defaults, schema, false);
    forall key | key in values
      ensures key in AssignDefaults(values, schema) && SameKeys(values[key], AssignDefaults(values, schema)[key])
    {
      if key in defaults || key in Properties(schema) {
        PresentKeepsKeys(values[key], Get(defaults, key), FieldSchema(schema, key));
      } else {
        SameKeysItself(values[key]);
      }
    }
    forall key | key !in values
      ensures Get(AssignDefaults(values, schema), key)
           == if IsInherited(key) then None else ExtractDefaults(FieldSchema(schema, key))
    {
      NothingFromNoSchema();
    }
  }

  /** The exception is real: a field named like an inherited function never gets its default. */
  lemma InheritedNameGetsNoDefault(value: Json)
    ensures var field := Field(Some(value), map[], NotASchema);
      ExtractDefaults(field) == Some(value) &&
      AssignDefaults(map[], Field(None, map["constructor" := field], NotASchema)) == map[]
  {
    var field := Field(Some(value), map[], NotASchema);
    assert ExtractDefaults(field) == Some(value) by {
      if value.Obj? {
        assert DeepMerge(map[], value) == value.fields;
      }
    }
    assert IsInherited("constructor");
  }

  lemma NothingFromNoSchema()
    ensures ExtractDefaults(NotASchema) == None
  {
  }

  function At(value: Option<Json>, path: seq<Key>): Option<Json>
    decreases |path|
  {
    if path == [] then value
    else if value.Some? && value.value.Obj? then At(Get(value.value.fields, path[0]), path[1..])
    else None
  }

  /**
   Array items do gain keys: an item object is filled with what its item schema's defaults have and it has
   not, under its own name; without such defaults the array stays as it was.
   */
  lemma ItemsAreFilled(items: seq<Json>, default: Option<Json>, field: Schema, fill: bool, i: nat, name: Key)
    requires i < |items| && items[i].Obj? && name !in items[i].fields
    ensures Filled(Arr(items), default, field, fill).Arr?
    ensures |Filled(Arr(items), default, field, fill).items| == |items|
    ensures At(Some(Filled(Arr(items), default, field, fill).items[i]), [name])
         == if IsInherited(name) then None else At(ExtractDefaults(ItemSchema(field)), [name])
    ensures (ExtractDefaults(ItemSchema(field)).None? || !ExtractDefaults(ItemSchema(field)).value.Obj?)
      ==> Filled(Arr(items), default, field, fill) == Arr(items)
  {
    hide IsInherited, ExtractDefaults;
    var itemDefaults := ExtractDefaults(ItemSchema(field));
    if itemDefaults.Some? && itemDefaults.value.Obj? {
      assert Filled(Arr(items), default, field, fill).items[i]
          == Obj(Assigned(items[i], itemDefaults.value.fields, ItemSchema(field), true));
    }
  }

  // ---------- A field's own default and those of its nested fields ----------

  /** Following the path through objects, the value has nothing to say about its end. */
  predicate Silent(value: Json, path: seq<Key>)
    decreases |path|
  {
    path != [] && value.Obj? && (path[0] in value.fields ==> Silent(value.fields[path[0]], path[1..]))
  }

  /** Path by path, what the overrides say stands, and where they are silent the base does: nothing else. */
  lemma {:induction false} MergeLeaves(base: Fields, overrides: Json, path: seq<Key>, leaf: Json)
    requires overrides.Obj? && !leaf.Obj?
    ensures At(Some(Obj(DeepMerge(base, overrides))), path) == Some(leaf) <==>
            || At(Some(overrides), path) == Some(leaf)
            || (Silent(overrides, path) && At(Some(Obj(base)), path) == Some(leaf))
    decreases overrides
  {
    if path != [] {
      var key, rest := path[0], path[1..];
      if key in overrides.fields && key in base && base[key].Obj? && overrides.fields[key].Obj? {
        MergeLeaves(base[key].fields, overrides.fields[key], rest, leaf);
      }
    }
  }

  /**
   A field's own object default wins over its nested fields' defaults, leaf by leaf; where it is silent, theirs
   are used, and no leaf comes from anywhere else.
   */
  lemma OwnDefaultWins(schema: Schema, path: seq<Key>, leaf: Json)
    requires schema.Field? && schema.default.Some? && schema.default.value.Obj? && !leaf.Obj?
    ensures At(ExtractDefaults(schema), path) == Some(leaf) <==>
            || At(schema.default, path) == Some(leaf)
            || (Silent(schema.default.value, path) && At(Some(Obj(NestedDefaults(schema))), path) == Some(leaf))
  {
    hide At, Silent;
    MergeLeaves(NestedDefaults(schema), schema.default.value, path, leaf);
    assert ExtractDefaults(schema) == Some(Obj(DeepMerge(NestedDefaults(schema), schema.default.value)));
  }

  /** An own default that is no object is used only if no nested field has one. */
  lemma OtherOwnDefaultYields(schema: Schema)
    requires schema.Field? && schema.default.Some? && !schema.default.value.Obj?
    ensures ExtractDefaults(schema) == schema.default <==>
      forall key :: key in schema.properties ==> ExtractDefaults(schema.properties[key]) == None
  {
    var nested := NestedDefaults(schema);
    assert ExtractDefaults(schema) == if nested != map[] then Some(Obj(nested)) else schema.default;
    if key :| key in schema.properties && ExtractDefaults(schema.properties[key]) != None {
      assert key in nested;
    } else {
      assert nested == map[];
    }
  }

  /**
   All defaults of a field, leaf by leaf: a leaf below one of its fields comes from its own object default, or, where
   that has nothing to say or there is none, from that field's defaults; the field is a leaf itself exactly if its
   own default is that leaf and no nested field has one.
   */
  lemma DefaultsLeafByLeaf(schema: Schema, key: Key, rest: seq<Key>, leaf: Json)
    requires schema.Field? && !leaf.Obj?
    ensures var own := if schema.default.Some? && schema.default.value.Obj? then schema.default else None;
      At(ExtractDefaults(schema), [key] + rest) == Some(leaf) <==>
        || At(own, [key] + rest) == Some(leaf)
        || (&& (own.Some? ==> Silent(own.value, [key] + rest))
            && At(ExtractDefaults(FieldSchema(schema, key)), rest) == Some(leaf))
    ensures ExtractDefaults(schema) == Some(leaf) <==>
      schema.default == Some(leaf) && forall name :: name in schema.properties ==>
        ExtractDefaults(schema.properties[name]) == None
  {
    var path, nested := [key] + rest, NestedDefaults(schema);
    assert path[0] == key && path[1..] == rest;
    assert At(Some(Obj(nested)), path) == At(Get(nested, key), rest);
    NothingFromNoSchema();
    assert Get(nested, key) == ExtractDefaults(FieldSchema(schema, key)) by {
      hide At, Silent;
    }
    if schema.default.Some? && schema.default.value.Obj? {
      OwnDefaultWins(schema, path, leaf);
      assert ExtractDefaults(schema) == Some(Obj(DeepMerge(nested, schema.default.value)));
    } else {
      assert ExtractDefaults(schema) == if nested != map[] then Some(Obj(nested)) else schema.default;
      NoNested(schema);
      hide Silent;
    }
  }

  lemma NoNested(schema: Schema)
    requires schema.Field?
    ensures NestedDefaults(schema) == map[] <==>
      forall name :: name in schema.properties ==> ExtractDefaults(schema.properties[name]) == None
  {
    if name :| name in schema.properties && ExtractDefaults(schema.properties[name]) != None {
      assert name in NestedDefaults(schema);
    } else {
      assert NestedDefaults(schema) == map[];
    }
  }

  /**
   An object inside an array item is filled as well: from the item defaults under its key if they have an object
   there, else from its own field's defaults. Objects further down keep their keys.
   */
  lemma ObjectsInItemsAreFilled(item: Json, defaults: Fields, schema: Schema, key: Key, name: Key)
    requires item.Obj? && key in item.fields && item.fields[key].Obj?
    requires key in defaults || key in Properties(schema)
    ensures var field, own := FieldSchema(schema, key), Get(defaults, key);
      var before, after := item.fields[key], At(Some(Obj(Assigned(item, defaults, schema, true))), [key]);
      && after.Some? && after.value.Obj?
      && (name in before.fields ==>
            name in after.value.fields && SameKeys(before.fields[name], after.value.fields[name]))
      && (name !in before.fields && own.Some? && own.value.Obj? ==>
            At(after, [name]) == if IsInherited(name) then None else At(own, [name]))
      && (name !in before.fields && !(own.Some? && own.value.Obj?)
          && (ExtractDefaults(field).Some? ==> ExtractDefaults(field).value.Obj?) ==>
            At(after, [name]) == if IsInherited(name) then None else At(ExtractDefaults(field), [name]))
  {
    var field, own := FieldSchema(schema, key), Get(defaults, key);
    var before, below := item.fields[key], DefaultsBelow(own, field, true);
    var after := Assigned(before, below, field, false);
    assert At(Some(Obj(Assigned(item, defaults, schema, true))), [key]) == Some(Obj(after));
    if name in before.fields {
      if name in below || name in Properties(field) {
        PresentKeepsKeys(before.fields[name], Get(below, name), FieldSchema(field, name));
      } else {
        SameKeysItself(before.fields[name]);
      }
    }
    hide ExtractDefaults, Filled, SameKeys, IsInherited;
  }

  // ---------- The merge itself ----------

  method FillItems(items: seq<Json>, defaults: Fields, schema: Schema) returns (filled: seq<Json>)
    ensures filled == FilledItems(items, defaults, schema)
    decreases items
  {
    filled := [];
    var i := 0;
    while i < |items|
      invariant 0 <= i <= |items| && filled == FilledItems(items, defaults, schema)[..i]
    {
      if items[i].Obj? {
        var below := AssignRecursively(items[i], defaults, schema, true);
        filled := filled + [Obj(below)];
      } else {
        filled := filled + [items[i]];
      }
      i := i + 1;
    }
  }

  method FillOne(value: Json, default: Option<Json>, field: Schema, fill: bool) returns (filled: Json)
    ensures filled == Filled(value, default, field, fill)
    decreases value, 2
  {
    filled := value;
    if value.Obj? {
      var nestedDefaults := DefaultsBelow(default, field, fill);
      var below := AssignRecursively(value, nestedDefaults, field, false);
      filled := Obj(below);
    } else if value.Arr? {
      var itemDefaults := ExtractDefaults(ItemSchema(field));
      if itemDefaults.Some? && itemDefaults.value.Obj? {
        var items := FillItems(value.items, itemDefaults.value.fields, ItemSchema(field));
        filled := Arr(items);
      }
    }
  }

  /** What one key comes to hold. */
  function Wanted(target: Json, defaults: Fields, schema: Schema, fill: bool, key: Key): Option<Json>
    requires target.Obj?
  {
    if key !in target.fields then if IsInherited(key) then None else Get(defaults, key)
    else Some(Filled(target.fields[key], Get(defaults, key), FieldSchema(schema, key), fill))
  }

  lemma AssignedAt(target: Json, defaults: Fields, schema: Schema, fill: bool)
    requires target.Obj?
    ensures forall key {:trigger Get(Assigned(target, defaults, schema, fill), key)} ::
      Get(Assigned(target, defaults, schema, fill), key) ==
        if key in defaults.Keys + Properties(schema).Keys then Wanted(target, defaults, schema, fill, key)
        else Get(target.fields, key)
  {
    hide Filled, IsInherited, FieldSchema;
  }

  /** The keys still to come are as they were, the others as they will be. */
  ghost predicate Halfway(filled: Fields, start: Fields, goal: Fields, keys: set<Key>) {
    forall key :: Get(filled, key) == if key in keys then Get(start, key) else Get(goal, key)
  }

  lemma NothingDoneYet(target: Json, defaults: Fields, schema: Schema, fill: bool)
    requires target.Obj?
    ensures Halfway(target.fields, target.fields, Assigned(target, defaults, schema, fill),
                    defaults.Keys + Properties(schema).Keys)
  {
    AssignedAt(target, defaults, schema, fill);
    hide Assigned, Get;
  }

  lemma AsBefore(filled: Fields, start: Fields, goal: Fields, keys: set<Key>, key: Key)
    requires Halfway(filled, start, goal, keys) && key in keys
    ensures Get(filled, key) == Get(start, key)
  {
  }

  lemma OneKeyMore(target: Json, defaults: Fields, schema: Schema, fill: bool,
                   before: Fields, filled: Fields, keys: set<Key>, key: Key)
    requires target.Obj? && keys <= defaults.Keys + Properties(schema).Keys && key in keys
    requires Halfway(before, target.fields, Assigned(target, defaults, schema, fill), keys)
    requires Get(filled, key) == Wanted(target, defaults, schema, fill, key)
    requires forall other :: other != key ==> Get(filled, other) == Get(before, other)
    ensures Halfway(filled, target.fields, Assigned(target, defaults, schema, fill), keys - {key})
  {
    AssignedAt(target, defaults, schema, fill);
    hide Assigned, Get, Wanted;
  }

  lemma AllDone(filled: Fields, start: Fields, goal: Fields)
    requires Halfway(filled, start, goal, {})
    ensures filled == goal
  {
    SameGets(filled, goal);
  }

  /** Key by key over the defaults and the schema's fields, on a record that starts as the caller's. */
  method AssignRecursively(target: Json, defaults: Fields, schema: Schema, fill: bool) returns (filled: Fields)
    requires target.Obj?
    ensures filled == Assigned(target, defaults, schema, fill)
    decreases target, 1
  {
    hide *;
    filled := target.fields;
    var keys := defaults.Keys + Properties(schema).Keys;
    ghost var goal := Assigned(target, defaults, schema, fill);
    NothingDoneYet(target, defaults, schema, fill);
    while keys != {}
      invariant Halfway(filled, target.fields, goal, keys)
      invariant keys <= defaults.Keys + Properties(schema).Keys
      decreases |keys|
    {
      var key :| key in keys;
      ghost var before := filled;
      AsBefore(before, target.fields, goal, keys, key);
      filled := AssignKey(target, filled, defaults, schema, fill, key);
      OneKeyMore(target, defaults, schema, fill, before, filled, keys, key);
      keys := keys - {key};
    }
    AllDone(filled, target.fields, goal);
  }

  method AssignKey(target: Json, sofar: Fields, defaults: Fields, schema: Schema, fill: bool, key: Key)
    returns (filled: Fields)
    requires target.Obj? && Get(sofar, key) == Get(target.fields, key)
    ensures Get(filled, key) == Wanted(target, defaults, schema, fill, key)
    ensures forall other :: other != key ==> Get(filled, other) == Get(sofar, other)
    decreases target, 0
  {
    hide Filled, IsInherited, FieldSchema;
    filled := sofar;
    if key !in target.fields {
      if key in defaults && !IsInherited(key) {
        filled := filled[key := defaults[key]];
      }
    } else {
      var value := FillOne(target.fields[key], Get(defaults, key), FieldSchema(schema, key), fill);
      filled := filled[key := value];
    }
  }

  lemma SameGets(a: Fields, b: Fields)
    requires forall key :: Get(a, key) == Get(b, key)
    ensures a == b
  {
    forall key ensures key in a <==> key in b {
      assert Get(a, key) == Get(b, key);
    }
    assert a.Keys == b.Keys;
    forall key | key in a ensures a[key] == b[key] {
      assert Get(a, key) == Get(b, key);
    }
  }

  method FillDefaults(values: Fields, schema: Schema) returns (filled: Fields)
    ensures filled == AssignDefaults(values, schema)
  {
    filled := AssignRecursively(Obj(values), NestedDefaults(schema), schema, false);
  }
}

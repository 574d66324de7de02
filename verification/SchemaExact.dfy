/** Which schemas pass the check before launch, keyword by keyword and place by place, and which of them can be
    specialized. */
module SchemaExact {
  import opened Wrappers
  import opened Text
  import opened Schema

  // ----- One place of a schema -----

  predicate Absent(s: map<string, Json>, key: string) {
    key !in s || s[key].Null?
  }

  /** The type is one of the known names, or a list of different known names, at least one. */
  ghost predicate TypeGiven(s: map<string, Json>) {
    "type" in s &&
      match s["type"]
      case Str(name) => name in TYPES
      case Arr(names) =>
        && names != [] && (forall i :: 0 <= i < |names| ==> names[i].Str? && names[i].text in TYPES)
        && (forall i, j :: 0 <= i < j < |names| ==> names[i] != names[j])
      case _ => false
  }

  ghost predicate Allows(s: map<string, Json>, name: string) {
    "type" in s
    && (s["type"] == Str(name) || (s["type"].Arr? && Str(name) in s["type"].items))
  }

  ghost predicate CountOrAbsent(s: map<string, Json>, key: string) {
    Absent(s, key) || (s[key].Int? && s[key].whole >= 0)
  }

  ghost predicate NumberOrAbsent(s: map<string, Json>, key: string) {
    Absent(s, key) || s[key].Int? || s[key].Float?
  }

  ghost predicate TextOrMissing(s: map<string, Json>, key: string) {
    key in s ==> s[key].Str?
  }

  /** Where both bounds are written down they are numbers, and the lower is not above the upper. */
  ghost predicate InOrder(s: map<string, Json>, lower: string, upper: string) {
    lower in s && upper in s ==>
      && IsNumber(s[lower]) && IsNumber(s[upper])
      && NumberOf(s[lower]) <= NumberOf(s[upper])
  }

  ghost predicate BoundsSound(s: map<string, Json>) {
    && CountOrAbsent(s, "minItems") && CountOrAbsent(s, "maxItems") && InOrder(s, "minItems", "maxItems")
    && CountOrAbsent(s, "minLength") && CountOrAbsent(s, "maxLength")
    && InOrder(s, "minLength", "maxLength")
    && NumberOrAbsent(s, "minimum") && NumberOrAbsent(s, "maximum") && InOrder(s, "minimum", "maximum")
  }

  /** Required names are different texts, each a declared property. */
  ghost predicate RequiredSound(s: map<string, Json>) {
    Absent(s, "required") ||
      (&& s["required"].Arr? && !Absent(s, "properties") && s["properties"].Obj?
       && (forall i :: 0 <= i < |s["required"].items| ==>
             && s["required"].items[i].Str?
             && s["required"].items[i].text in s["properties"].fields)
       && (forall i, j :: 0 <= i < j < |s["required"].items| ==>
             s["required"].items[i] != s["required"].items[j]))
  }

  ghost predicate ChildrenSound(s: map<string, Json>) {
    && (!Absent(s, "properties") ==>
          && Allows(s, "object") && s["properties"].Obj?
          && forall name :: name in s["properties"].fields ==>
               s["properties"].fields[name].Obj?)
    && (!Absent(s, "items") ==> Allows(s, "array") && s["items"].Obj?)
  }

  /** Everything the check asks of one place, leaving the places below it aside. */
  ghost predicate SoundFields(s: map<string, Json>) {
    && s.Keys != {}
    && (forall key :: key in s ==> key in {
        "$schema", "title", "description", "type", "properties", "required", "additionalProperties", "items", "enum",
        "const", "minItems", "maxItems", "minLength", "maxLength", "minimum", "maximum"})
    && TypeGiven(s)
    && TextOrMissing(s, "$schema") && TextOrMissing(s, "title") && TextOrMissing(s, "description")
    && ChildrenSound(s) && RequiredSound(s)
    && (Absent(s, "additionalProperties") || s["additionalProperties"].Bool?)
    && BoundsSound(s)
    && ("enum" in s ==> s["enum"].Arr? && s["enum"].items != [])
  }

  ghost predicate SoundHere(schema: Json) {
    schema.Obj? && SoundFields(schema.fields)
  }

  lemma {:induction false} TypesAreGiven(schema: Json)
    requires schema.Obj?
    ensures var types := TypeNames(Get(schema, "type", Null));
      && (types.Some? && types.value <= TYPES <==> TypeGiven(schema.fields))
      && (types.Some? ==> forall name :: name in types.value <==> Allows(schema.fields, name))
  {
    var given := Get(schema, "type", Null);
    var types := TypeNames(given);
    if given.Arr? && types.Some? {
      forall i | 0 <= i < |given.items| ensures given.items[i].text in types.value {
      }
      forall name ensures name in types.value <==> Str(name) in given.items {
        if Str(name) in given.items {
          var i :| 0 <= i < |given.items| && given.items[i] == Str(name);
          assert given.items[i].text in types.value;
        }
      }
    }
  }

  lemma {:induction false} RequiredMeans(schema: Json)
    requires schema.Obj?
    ensures RequiredDefined(schema, Get(schema, "properties", Null)) <==> RequiredSound(schema.fields)
  {
  }

  lemma {:induction false} BoundsMean(schema: Json)
    requires schema.Obj?
    ensures BoundsDefined(schema) <==> BoundsSound(schema.fields)
  {
  }

  ghost predicate ChildrenDefined(schema: Json)
    requires schema.Obj?
  {
    && (Path(schema, "properties").Obj? ==> forall name :: name in Path(schema, "properties").fields ==>
          Defined(Path(schema, "properties").fields[name]))
    && (Path(schema, "items").Obj? ==> Defined(Path(schema, "items")))
  }

  lemma {:induction false} SomeKey(s: map<string, Json>)
    ensures s != map[] <==> s.Keys != {}
  {
    if key :| key in s { assert key in s.Keys; } else { assert s == map[]; }
  }

  lemma {:induction false} SoundIsDefined(schema: Json)
    requires SoundHere(schema) && ChildrenDefined(schema)
    ensures Defined(schema)
  {
    SomeKey(schema.fields);
    TypesAreGiven(schema);
    RequiredMeans(schema);
    BoundsMean(schema);
    var properties := Get(schema, "properties", Null);
    if properties.Obj? {
      forall name | name in properties.fields ensures properties.fields[name].Obj? && Defined(properties.fields[name]) {
        assert Path(schema, "properties") == properties;
      }
    }
  }

  lemma {:induction false} DefinedIsSound(schema: Json)
    requires Defined(schema)
    ensures SoundHere(schema) && ChildrenDefined(schema)
  {
    SomeKey(schema.fields);
    TypesAreGiven(schema);
    RequiredMeans(schema);
    BoundsMean(schema);
  }

  // ----- All places of a schema -----

  /** A step down into a schema: to one of its properties, or to its items. */
  datatype Step = Property(name: string) | Items

  /** The schema found by following the steps. */
  function At(schema: Json, path: seq<Step>): (r: Option<Json>)
    decreases |path|
  {
    if path == [] then Some(schema)
    else
      match path[0]
      case Property(name) =>
        var properties := Path(schema, "properties");
        if properties.Obj? && name in properties.fields then At(properties.fields[name], path[1..]) else None
      case Items => if Path(schema, "items").Obj? then At(Path(schema, "items"), path[1..]) else None
  }

  ghost predicate SoundEverywhere(schema: Json) {
    forall path :: At(schema, path).Some? ==> SoundHere(At(schema, path).value)
  }

  lemma {:induction false} DefinedAt(schema: Json, path: seq<Step>)
    requires Defined(schema) && At(schema, path).Some?
    ensures SoundHere(At(schema, path).value)
    decreases |path|
  {
    DefinedIsSound(schema);
    if path != [] {
      match path[0]
      case Property(name) => DefinedAt(Path(schema, "properties").fields[name], path[1..]);
      case Items => DefinedAt(Path(schema, "items"), path[1..]);
    }
  }

  lemma {:induction false} SoundBelow(schema: Json, step: Step)
    requires SoundEverywhere(schema) && At(schema, [step]).Some?
    ensures SoundEverywhere(At(schema, [step]).value)
  {
    var child := At(schema, [step]).value;
    assert [step][1..] == [];
    forall path | At(child, path).Some? ensures SoundHere(At(child, path).value) {
      assert ([step] + path)[1..] == path;
      assert At(schema, [step] + path) == At(child, path);
    }
  }

  lemma {:induction false} SoundEverywhereIsDefined(schema: Json)
    requires SoundEverywhere(schema)
    ensures Defined(schema)
    decreases schema
  {
    assert At(schema, []) == Some(schema);
    var properties, items := Path(schema, "properties"), Path(schema, "items");
    if properties.Obj? {
      forall name | name in properties.fields ensures Defined(properties.fields[name]) {
        assert [Property(name)][1..] == [];
        SoundBelow(schema, Property(name));
        SoundEverywhereIsDefined(properties.fields[name]);
      }
    }
    if items.Obj? {
      assert [Items][1..] == [];
      SoundBelow(schema, Items);
      SoundEverywhereIsDefined(items);
    }
    SoundIsDefined(schema);
  }

  /** A schema passes the check exactly when every place of it is sound. */
  lemma {:induction false} DefinedIffSoundEverywhere(schema: Json)
    ensures Defined(schema) <==> SoundEverywhere(schema)
  {
    if Defined(schema) {
      forall path | At(schema, path).Some? ensures SoundHere(At(schema, path).value) { DefinedAt(schema, path); }
    }
    if SoundEverywhere(schema) { SoundEverywhereIsDefined(schema); }
  }

  // ----- Specializing a checked schema -----

  lemma {:induction false} RecordStaysDefined(record: Json, ids: seq<string>)
    requires Defined(record)
    ensures Defined(With(record, "enum", Arr(IdList(ids)))) <==> ids != []
  {
    var narrow := With(record, "enum", Arr(IdList(ids)));
    DefinedIsSound(record);
    if Defined(narrow) { DefinedIsSound(narrow); }
    if ids != [] { SoundIsDefined(narrow); }
  }

  /** What is sound without regard to the places below stays so when other keys are given other values. */
  lemma {:induction false} OthersStaySound(s: map<string, Json>, t: map<string, Json>)
    requires SoundFields(s) && s.Keys <= t.Keys
    requires forall key :: key in t ==> key in s || key == "minItems" || key == "maxItems"
    requires forall key :: key in s && key !in {"properties", "items", "minItems", "maxItems"} ==> t[key] == s[key]
    ensures t.Keys != {} && TypeGiven(t) && forall name :: Allows(t, name) <==> Allows(s, name)
    ensures TextOrMissing(t, "$schema") && TextOrMissing(t, "title") && TextOrMissing(t, "description")
    ensures Absent(t, "additionalProperties") || t["additionalProperties"].Bool?
    ensures "enum" in t ==> t["enum"].Arr? && t["enum"].items != []
  {
    var key :| key in s;
    assert key in t.Keys;
  }

  lemma {:induction false} PropertySound(s: map<string, Json>, properties: Json)
    requires SoundFields(s) && !Absent(s, "properties")
    requires properties.Obj? && properties.fields.Keys == s["properties"].fields.Keys
    requires forall name :: name in properties.fields ==> properties.fields[name].Obj?
    ensures SoundFields(s["properties" := properties])
  {
    var t := s["properties" := properties];
    OthersStaySound(s, t);
    assert BoundsSound(t);
    assert RequiredSound(t);
  }

  lemma {:induction false} ItemsSound(s: map<string, Json>, items: Json, count: nat)
    requires SoundFields(s) && !Absent(s, "items") && items.Obj?
    ensures SoundFields(s["items" := items]["minItems" := Int(count)]["maxItems" := Int(count)])
  {
    var t := s["items" := items]["minItems" := Int(count)]["maxItems" := Int(count)];
    OthersStaySound(s, t);
    assert BoundsSound(t);
    assert RequiredSound(t);
  }

  lemma {:induction false} PropertyReplacedDefined(schema: Json, name: string, child: Json)
    requires Defined(schema) && Path(schema, "properties").Obj? && name in Path(schema, "properties").fields
    ensures Defined(With(schema, "properties", With(Path(schema, "properties"), name, child))) <==> Defined(child)
  {
    var properties := With(Path(schema, "properties"), name, child);
    var narrow := With(schema, "properties", properties);
    if Defined(narrow) {
      DefinedIsSound(narrow);
      assert Path(narrow, "properties") == properties && properties.fields[name] == child;
    }
    if Defined(child) { PropertyStaysDefined(schema, name, child); }
  }

  lemma {:induction false} PropertyStaysDefined(schema: Json, name: string, child: Json)
    requires Defined(schema) && Path(schema, "properties").Obj? && name in Path(schema, "properties").fields
    requires Defined(child)
    ensures Defined(With(schema, "properties", With(Path(schema, "properties"), name, child)))
  {
    var properties := With(Path(schema, "properties"), name, child);
    var narrow := With(schema, "properties", properties);
    DefinedIsSound(schema);
    assert Path(narrow, "properties") == properties && Path(narrow, "items") == Path(schema, "items");
    DefinedIsSound(child);
    PropertySound(schema.fields, properties);
    SoundIsDefined(narrow);
  }

  lemma {:induction false} ItemsReplacedDefined(schema: Json, items: Json, count: nat)
    requires Defined(schema) && Path(schema, "items").Obj? && items.Obj?
    ensures Defined(With(With(With(schema, "items", items), "minItems", Int(count)), "maxItems", Int(count)))
      <==> Defined(items)
  {
    var narrow := With(With(With(schema, "items", items), "minItems", Int(count)), "maxItems", Int(count));
    DefinedIsSound(schema);
    assert Path(narrow, "items") == items && Path(narrow, "properties") == Path(schema, "properties");
    if Defined(narrow) {
      DefinedIsSound(narrow);
      ItemsOfSound(narrow);
    }
    if Defined(items) {
      DefinedIsSound(items);
      ItemsSound(schema.fields, items, count);
      SoundIsDefined(narrow);
    }
  }

  lemma {:induction false} ItemsOfSound(schema: Json)
    requires SoundHere(schema) && ChildrenDefined(schema) && !Path(schema, "items").Null?
    ensures Defined(Path(schema, "items"))
  {
  }

  /** A checked schema that asks for strict results can be specialized for every shard that is not empty. */
  lemma {:induction false} SpecializesIff(schema: Json, ids: seq<string>)
    requires Defined(schema) && StrictResults(schema)
    ensures Specialize(schema, ids) == if ids != [] then Some(Narrowed(schema, ids)) else None
  {
    var results, item, record := ResultsSchema(schema), ItemSchema(schema), RecordSchema(schema);
    DefinedIsSound(schema);
    DefinedIsSound(results);
    DefinedIsSound(item);
    RecordStaysDefined(record, ids);
    var narrowRecord := With(record, "enum", Arr(IdList(ids)));
    PropertyReplacedDefined(item, "record_id", narrowRecord);
    var narrowItem := With(item, "properties", With(Path(item, "properties"), "record_id", narrowRecord));
    ItemsReplacedDefined(results, narrowItem, |ids|);
    PropertyReplacedDefined(schema, "results",
      With(With(With(results, "items", narrowItem), "minItems", Int(|ids|)), "maxItems", Int(|ids|)));
  }
}

/** The schema subset of the harness on decoded JSON, and how a shard's schema is made from the batch's. */
module Schema {
  import opened Wrappers
  import opened Text

  datatype Json =
    | Null | Bool(truth: bool) | Int(whole: int) | Float(number: real) | Str(text: string)
    | Arr(items: seq<Json>) | Obj(fields: map<string, Json>)

  predicate IsNumber(j: Json) {
    j.Int? || j.Float?
  }

  function NumberOf(j: Json): real
    requires IsNumber(j) || j.Bool?
  {
    match j
    case Int(i) => i as real
    case Float(r) => r
    case Bool(b) => if b then 1.0 else 0.0
  }

  /** Equality as the host language has it: numbers and truth values compare by value. */
  predicate Same(a: Json, b: Json)
    decreases a
  {
    if (IsNumber(a) || a.Bool?) && (IsNumber(b) || b.Bool?) then NumberOf(a) == NumberOf(b)
    else match (a, b)
      case (Arr(xs), Arr(ys)) => |xs| == |ys| && forall i :: 0 <= i < |xs| ==> Same(xs[i], ys[i])
      case (Obj(xs), Obj(ys)) => xs.Keys == ys.Keys && forall k :: k in xs ==> Same(xs[k], ys[k])
      case _ => a == b
  }

  const KEYWORDS :=
    {"$schema", "title", "description", "type", "properties", "required", "additionalProperties", "items",
                     "enum", "const", "minItems", "maxItems", "minLength", "maxLength", "minimum", "maximum"}

  const TYPES := {"array", "boolean", "integer", "null", "number", "object", "string"}

  predicate Has(schema: Json, key: string) {
    schema.Obj? && key in schema.fields
  }

  function Get(schema: Json, key: string, default: Json): Json {
    if Has(schema, key) then schema.fields[key] else default
  }

  predicate Strings(j: Json) {
    j.Arr? && forall i :: 0 <= i < |j.items| ==> j.items[i].Str?
  }

  function TypeNames(j: Json): Option<set<string>> {
    if j.Str? then Some({j.text})
    else if Strings(j) && j.items != [] && Distinct(j.items) then Some(set i | 0 <= i < |j.items| :: j.items[i].text)
    else None
  }

  predicate Natural(j: Json) {
    j.Null? || (j.Int? && j.whole >= 0)
  }

  /** Two bounds that are both present are compared even when one is null, which is an error. */
  predicate Ordered(schema: Json, lower: string, upper: string) {
    Has(schema, lower) && Has(schema, upper) ==>
      var (a, b) := (schema.fields[lower], schema.fields[upper]);
      IsNumber(a) && IsNumber(b) && NumberOf(a) <= NumberOf(b)
  }

  predicate BoundsDefined(schema: Json) {
    && Natural(Get(schema, "minItems", Null)) && Natural(Get(schema, "maxItems", Null))
    && Natural(Get(schema, "minLength", Null)) && Natural(Get(schema, "maxLength", Null))
    && (var m := Get(schema, "minimum", Null); m.Null? || IsNumber(m))
    && (var m := Get(schema, "maximum", Null); m.Null? || IsNumber(m))
    && Ordered(schema, "minItems", "maxItems") && Ordered(schema, "minLength", "maxLength")
    && Ordered(schema, "minimum", "maximum")
  }

  predicate RequiredDefined(schema: Json, properties: Json) {
    var required := Get(schema, "required", Null);
    required.Null? || (&& Strings(required) && Distinct(required.items) && properties.Obj?
                       && forall i :: 0 <= i < |required.items| ==> required.items[i].text in properties.fields)
  }

  predicate TextDefined(schema: Json) {
    Get(schema, "$schema", Str("")).Str? && Get(schema, "title", Str("")).Str?
      && Get(schema, "description", Str("")).Str?
  }

  /** The check of a schema before any agent is started. */
  predicate Defined(schema: Json)
    decreases schema
  {
    && schema.Obj? && schema.fields != map[] && schema.fields.Keys <= KEYWORDS
    && (var types := TypeNames(Get(schema, "type", Null));
        var (properties, items) := (Get(schema, "properties", Null), Get(schema, "items", Null));
        && types.Some? && types.value <= TYPES && TextDefined(schema)
        && (!properties.Null? ==>
             && "object" in types.value && properties.Obj?
             && forall name :: name in properties.fields ==>
               properties.fields[name].Obj? && Defined(properties.fields[name]))
        && RequiredDefined(schema, properties)
        && (var additional := Get(schema, "additionalProperties", Null); additional.Null? || additional.Bool?)
        && (!items.Null? ==> "array" in types.value && items.Obj? && Defined(items))
        && BoundsDefined(schema)
        && (Has(schema, "enum") ==> schema.fields["enum"].Arr? && schema.fields["enum"].items != []))
  }

  predicate Matches(value: Json, name: string) {
    match name
    case "object" => value.Obj?
    case "array" => value.Arr?
    case "string" => value.Str?
    case "integer" => value.Int?
    case "number" => IsNumber(value)
    case "boolean" => value.Bool?
    case "null" => value.Null?
    case _ => false
  }

  predicate Typed(value: Json, expected: Json) {
    match expected
    case Arr(names) => exists i :: 0 <= i < |names| && names[i].Str? && Matches(value, names[i].text)
    case Str(name) => Matches(value, name)
    case Null => true
    case _ => false
  }

  predicate Within(x: real, lower: Json, upper: Json) {
    (IsNumber(lower) ==> x >= NumberOf(lower)) && (IsNumber(upper) ==> x <= NumberOf(upper))
  }

  predicate Listed(value: Json, options: Json) {
    options.Arr? && exists i :: 0 <= i < |options.items| && Same(value, options.items[i])
  }

  predicate KeysFit(value: Json, schema: Json)
    requires value.Obj?
  {
    var (properties, required) := (Get(schema, "properties", Obj(map[])), Get(schema, "required", Arr([])));
    && properties.Obj? && Strings(required)
    && (forall i :: 0 <= i < |required.items| ==> required.items[i].text in value.fields)
    && (Get(schema, "additionalProperties", Null) == Bool(false) ==> value.fields.Keys <= properties.fields.Keys)
  }

  /** A value passes against a schema. */
  predicate Fits(value: Json, schema: Json)
    decreases schema
  {
    && schema.Obj? && schema.fields.Keys <= KEYWORDS
    && (Has(schema, "enum") ==> Listed(value, schema.fields["enum"]))
    && (Has(schema, "const") ==> Same(value, schema.fields["const"]))
    && Typed(value, Get(schema, "type", Null))
    && (value.Obj? ==>
         && KeysFit(value, schema)
         && (Has(schema, "properties") ==>
              var properties := schema.fields["properties"];
              forall name :: name in properties.fields && name in value.fields ==>
                properties.fields[name].Obj? && Fits(value.fields[name], properties.fields[name])))
    && (value.Arr? ==>
         && Within(|value.items| as real, Get(schema, "minItems", Null), Get(schema, "maxItems", Null))
         && (Has(schema, "items") && !schema.fields["items"].Null? ==>
              schema.fields["items"].Obj? && forall i :: 0 <= i < |value.items| ==>
                Fits(value.items[i], schema.fields["items"])))
    && (value.Str? ==> Within(|value.text| as real, Get(schema, "minLength", Null), Get(schema, "maxLength", Null)))
    && (IsNumber(value) ==> Within(NumberOf(value), Get(schema, "minimum", Null), Get(schema, "maximum", Null)))
  }

  predicate Validates(value: Json, schema: Json) {
    Defined(schema) && Fits(value, schema)
  }

  // ----- Specializing the schema of a batch for one shard -----

  function Path(schema: Json, key: string): Json {
    Get(schema, key, Null)
  }

  function ResultsSchema(schema: Json): Json {
    Path(Path(schema, "properties"), "results")
  }

  function ItemSchema(schema: Json): Json {
    Path(ResultsSchema(schema), "items")
  }

  function RecordSchema(schema: Json): Json {
    Path(Path(ItemSchema(schema), "properties"), "record_id")
  }

  /** The schema asks for an array of objects that carry a record id and nothing undeclared. */
  predicate StrictResults(schema: Json) {
    && RecordSchema(schema).Obj?
    && Path(schema, "type") == Str("object") && Path(ResultsSchema(schema), "type") == Str("array")
    && Path(ItemSchema(schema), "type") == Str("object") && Path(RecordSchema(schema), "type") == Str("string")
    && (var required := Get(ItemSchema(schema), "required", Arr([]));
        required.Arr? && Str("record_id") in required.items)
    && Path(ItemSchema(schema), "additionalProperties") == Bool(false)
  }

  function With(schema: Json, key: string, value: Json): Json
    requires schema.Obj?
  {
    Obj(schema.fields[key := value])
  }

  function IdList(ids: seq<string>): (r: seq<Json>)
    ensures |r| == |ids| && forall i :: 0 <= i < |r| ==> r[i] == Str(ids[i])
  {
    seq(|ids|, i requires 0 <= i < |ids| => Str(ids[i]))
  }

  function Narrowed(schema: Json, ids: seq<string>): Json
    requires StrictResults(schema)
  {
    var item := ItemSchema(schema);
    var record := With(RecordSchema(schema), "enum", Arr(IdList(ids)));
    var narrowItem := With(item, "properties", With(Path(item, "properties"), "record_id", record));
    var results :=
      With(With(With(ResultsSchema(schema), "items", narrowItem), "minItems", Int(|ids|)), "maxItems", Int(|ids|));
    With(schema, "properties", With(Path(schema, "properties"), "results", results))
  }

  function Specialize(schema: Json, ids: seq<string>): Option<Json> {
    if StrictResults(schema) && Defined(Narrowed(schema, ids)) then Some(Narrowed(schema, ids)) else None
  }

  // ----- Exact-once coverage -----

  function Observed(rows: seq<Json>): seq<string> {
    if rows == [] then []
    else
      var id := Path(rows[|rows| - 1], "record_id");
      Observed(rows[..|rows| - 1]) + (if id.Str? then [id.text] else [])
  }

  /** Coverage passes: as many ids as planned, none missing, none unknown, none twice. */
  predicate Covers(observed: seq<string>, ids: seq<string>) {
    && |observed| == |ids| && (forall id :: id in ids ==> id in observed) && (forall id :: id in observed ==> id in ids)
    && Distinct(observed)
  }

  function RowIds(output: Json): seq<string> {
    var results := Path(output, "results");
    if results.Arr? then Observed(results.items) else []
  }

  datatype Coverage = Pass | Fail | NotAnArray | NotApplicable

  function ValidateCoverage(output: Json, ids: seq<string>): Coverage {
    var results := Path(output, "results");
    if !results.Arr? then NotAnArray
    else if Covers(Observed(results.items), ids) then Pass else Fail
  }

  /** Without a list of ids, those of the schema's enumeration are used. One that holds anything but text is never
      covered, as only text is observed. (A checked schema has an array here or nothing.) */
  function CoverageBySchema(output: Json, schema: Json): Coverage {
    var ids := Path(RecordSchema(schema), "enum");
    if !ids.Arr? then NotApplicable
    else if Strings(ids) then ValidateCoverage(output, TextsOf(ids.items))
    else if Path(output, "results").Arr? then Fail else NotAnArray
  }

  function TextsOf(items: seq<Json>): (r: seq<string>)
    requires forall i :: 0 <= i < |items| ==> items[i].Str?
    ensures |r| == |items| && forall i :: 0 <= i < |r| ==> r[i] == items[i].text
  {
    seq(|items|, i requires 0 <= i < |items| => items[i].text)
  }

  ghost function Elements(s: seq<string>): set<string> {
    set x | x in s
  }

  lemma {:induction false} DistinctCount(s: seq<string>)
    ensures |Elements(s)| <= |s|
    ensures Distinct(s) <==> |Elements(s)| == |s|
    decreases |s|
  {
    if s != [] {
      var front, last := s[..|s| - 1], s[|s| - 1];
      DistinctCount(front);
      assert Elements(s) == Elements(front) + {last};
      if last in Elements(front) {
        assert Elements(s) == Elements(front);
        var i :| 0 <= i < |front| && front[i] == last;
        assert s[i] == s[|s| - 1];
      } else if Distinct(front) {
        assert Distinct(s);
      }
    }
  }

  lemma {:induction false} SubsetOfSameSize(a: set<string>, b: set<string>)
    requires a <= b && |a| == |b|
    ensures a == b
  {
    if a != b {
      var x :| x in b && x !in a;
      assert a <= b - {x};
      SubsetSize(a, b - {x});
    }
  }

  lemma {:induction false} SubsetSize(a: set<string>, b: set<string>)
    requires a <= b
    ensures |a| <= |b|
  {
    if a != {} {
      var x :| x in a;
      SubsetSize(a - {x}, b - {x});
    }
  }

  /** Enough distinct ids from the plan are all of the plan. */
  lemma {:induction false} Pigeonhole(observed: seq<string>, ids: seq<string>)
    requires Distinct(ids) && |observed| == |ids| && (forall id :: id in observed ==> id in ids)
    ensures Covers(observed, ids) <==> Distinct(observed)
  {
    if Distinct(observed) {
      DistinctCount(observed);
      DistinctCount(ids);
      assert Elements(observed) <= Elements(ids);
      SubsetOfSameSize(Elements(observed), Elements(ids));
      forall id | id in ids ensures id in observed { assert id in Elements(ids); }
    }
  }

  function RowId(row: Json): string
    requires Path(row, "record_id").Str?
  {
    Path(row, "record_id").text
  }

  /** What a row of a fitting output is sure to be. */
  ghost predicate RowOf(row: Json, ids: seq<string>) {
    Path(row, "record_id").Str? && RowId(row) in ids
  }

  lemma {:induction false} ObservedRows(rows: seq<Json>, ids: seq<string>)
    requires forall i :: 0 <= i < |rows| ==> RowOf(rows[i], ids)
    ensures |Observed(rows)| == |rows|
    ensures forall i :: 0 <= i < |rows| ==> Path(rows[i], "record_id").Str? && Observed(rows)[i] == RowId(rows[i])
  {
    if rows != [] { ObservedRows(rows[..|rows| - 1], ids); }
  }

  lemma {:induction false} PropertyFits(value: Json, schema: Json, name: string)
    requires Fits(value, schema) && value.Obj? && Has(Path(schema, "properties"), name) && name in value.fields
    ensures Fits(value.fields[name], Path(Path(schema, "properties"), name))
  {
  }

  lemma {:induction false} ArrayFits(value: Json, schema: Json)
    requires Fits(value, schema) && Path(schema, "type") == Str("array") && Path(schema, "items").Obj?
    requires Path(schema, "minItems").Int? && Path(schema, "maxItems").Int?
    ensures value.Arr? && Path(schema, "minItems").whole <= |value.items| <= Path(schema, "maxItems").whole
    ensures forall i :: 0 <= i < |value.items| ==> Fits(value.items[i], Path(schema, "items"))
  {
    assert Typed(value, Str("array"));
  }

  lemma {:induction false} RequiredFits(value: Json, schema: Json, name: string)
    requires Fits(value, schema) && Path(schema, "type") == Str("object")
    requires var required := Get(schema, "required", Arr([])); required.Arr? && Str(name) in required.items
    ensures value.Obj? && name in value.fields
  {
    assert Typed(value, Str("object"));
    var required := Get(schema, "required", Arr([]));
    var k :| 0 <= k < |required.items| && required.items[k] == Str(name);
    assert required.items[k].text in value.fields;
  }

  lemma {:induction false} NarrowedParts(schema: Json, ids: seq<string>)
    requires StrictResults(schema)
    ensures var narrow := Narrowed(schema, ids);
      && Path(narrow, "type") == Str("object") && Has(Path(narrow, "properties"), "results")
      && Path(ResultsSchema(narrow), "type") == Str("array") && ItemSchema(narrow).Obj?
      && Path(ResultsSchema(narrow), "minItems") == Int(|ids|) && Path(ResultsSchema(narrow), "maxItems") == Int(|ids|)
      && Path(ItemSchema(narrow), "type") == Str("object") && Has(Path(ItemSchema(narrow), "properties"), "record_id")
      && Get(ItemSchema(narrow), "required", Arr([])) == Get(ItemSchema(schema), "required", Arr([]))
      && Path(RecordSchema(narrow), "type") == Str("string") && Path(RecordSchema(narrow), "enum") == Arr(IdList(ids))
  {
  }

  lemma {:induction false} RecordFits(value: Json, schema: Json, ids: seq<string>)
    requires Fits(value, schema) && Path(schema, "type") == Str("string") && Path(schema, "enum") == Arr(IdList(ids))
    ensures value.Str? && value.text in ids
  {
    assert Typed(value, Str("string")) && Listed(value, Arr(IdList(ids)));
  }

  lemma {:induction false} RowFits(row: Json, schema: Json, ids: seq<string>)
    requires StrictResults(schema) && Fits(row, ItemSchema(Narrowed(schema, ids)))
    ensures RowOf(row, ids)
  {
    var narrow := Narrowed(schema, ids);
    NarrowedParts(schema, ids);
    RequiredFits(row, ItemSchema(narrow), "record_id");
    PropertyFits(row, ItemSchema(narrow), "record_id");
    RecordFits(row.fields["record_id"], RecordSchema(narrow), ids);
  }

  lemma {:induction false} OutputFits(output: Json, schema: Json, ids: seq<string>)
    requires StrictResults(schema) && Fits(output, Narrowed(schema, ids)) && Has(output, "results")
    ensures var results := output.fields["results"];
      results.Arr? && |results.items| == |ids| && forall i :: 0 <= i < |results.items| ==> RowOf(results.items[i], ids)
  {
    var results, narrow := output.fields["results"], Narrowed(schema, ids);
    NarrowedParts(schema, ids);
    PropertyFits(output, narrow, "results");
    ArrayFits(results, ResultsSchema(narrow));
    forall i | 0 <= i < |results.items| ensures RowOf(results.items[i], ids) {
      RowFits(results.items[i], schema, ids);
    }
  }

  /** For an output with results that fits the shard's schema, exact-once coverage is the same as distinct ids: the
      schema alone fixes the count and the range, and counting does the rest. */
  lemma {:induction false} CoverageIsDistinctness(output: Json, schema: Json, ids: seq<string>)
    requires Distinct(ids) && Specialize(schema, ids).Some? && Has(output, "results")
    requires Validates(output, Specialize(schema, ids).value)
    ensures ValidateCoverage(output, ids) == Pass <==> Distinct(RowIds(output))
    ensures ValidateCoverage(output, ids) in {Pass, Fail}
  {
    OutputFits(output, schema, ids);
    var rows := output.fields["results"].items;
    ObservedRows(rows, ids);
    Pigeonhole(Observed(rows), ids);
  }

  /** Coverage means that the reported ids are the planned ones, each exactly once. */
  lemma {:induction false} CoverageIsExactOnce(output: Json, ids: seq<string>)
    requires Distinct(ids) && Path(output, "results").Arr?
    ensures ValidateCoverage(output, ids) == Pass
      <==> multiset(RowIds(output)) == multiset(ids)
  {
    var observed := RowIds(output);
    if ValidateCoverage(output, ids) == Pass {
      SameMultiset(observed, ids);
    }
    if multiset(observed) == multiset(ids) {
      SameMultisetCovers(observed, ids);
    }
  }

  lemma {:induction false} SameMultisetCovers(observed: seq<string>, ids: seq<string>)
    requires Distinct(ids) && multiset(observed) == multiset(ids)
    ensures Covers(observed, ids)
  {
    assert |multiset(observed)| == |multiset(ids)|;
    forall id ensures id in observed <==> id in ids { assert id in multiset(observed) <==> id in multiset(ids); }
    DistinctCount(observed);
    DistinctCount(ids);
    assert Elements(observed) == Elements(ids);
  }

  lemma {:induction false} CountOfDistinct(s: seq<string>, x: string)
    requires Distinct(s)
    ensures multiset(s)[x] == if x in s then 1 else 0
  {
    if s != [] {
      assert s == [s[0]] + s[1..];
      CountOfDistinct(s[1..], x);
    }
  }

  lemma {:induction false} SameMultiset(a: seq<string>, b: seq<string>)
    requires Distinct(a) && Distinct(b) && forall x :: x in a <==> x in b
    ensures multiset(a) == multiset(b)
  {
    forall x ensures multiset(a)[x] == multiset(b)[x] {
      CountOfDistinct(a, x);
      CountOfDistinct(b, x);
    }
  }

  /** The check by the schema's own enumeration and the check by the shard's ids agree. */
  lemma {:induction false} BothCoverageChecksAgree(output: Json, schema: Json, ids: seq<string>)
    requires Specialize(schema, ids).Some?
    ensures CoverageBySchema(output, Specialize(schema, ids).value) == ValidateCoverage(output, ids)
  {
    NarrowedParts(schema, ids);
    assert TextsOf(IdList(ids)) == ids;
  }

  // ----- What specializing a schema changes -----

  /** Replacing the schema of one property changes the verdict only through that property. */
  lemma {:induction false} PropertyReplaced(value: Json, schema: Json, name: string, other: Json, was: bool, now: bool)
    requires schema.Obj? && Path(schema, "properties").Obj? && name in Path(schema, "properties").fields
    requires Path(schema, "properties").fields[name].Obj? && other.Obj?
    requires Has(value, name) ==>
      (Fits(value.fields[name], other) && was <==>
        Fits(value.fields[name], Path(schema, "properties").fields[name]) && now)
    ensures Fits(value, With(schema, "properties", With(Path(schema, "properties"), name, other)))
      && (Has(value, name) ==> was)
      <==> Fits(value, schema) && (Has(value, name) ==> now)
  {
    var properties := Path(schema, "properties");
    var changed := With(properties, name, other);
    var after := With(schema, "properties", changed);
    assert changed.fields.Keys == properties.fields.Keys && after.fields["properties"] == changed;
    if value.Obj? {
      assert forall key :: key in properties.fields && key != name ==> changed.fields[key] == properties.fields[key];
      assert KeysFit(value, after) <==> KeysFit(value, schema);
      ChildrenReplaced(value, properties, changed, name, was, now);
    }
  }

  ghost predicate ChildrenFit(value: Json, properties: Json)
    requires value.Obj? && properties.Obj?
  {
    forall key :: key in properties.fields && key in value.fields ==>
      properties.fields[key].Obj? && Fits(value.fields[key], properties.fields[key])
  }

  lemma {:induction false} ChildrenReplaced(value: Json, properties: Json, changed: Json, name: string, was: bool,
                                            now: bool)
    requires value.Obj? && properties.Obj? && changed.Obj? && changed.fields.Keys == properties.fields.Keys
    requires name in properties.fields && properties.fields[name].Obj? && changed.fields[name].Obj?
    requires forall key :: key in properties.fields && key != name ==> changed.fields[key] == properties.fields[key]
    requires name in value.fields ==>
      (Fits(value.fields[name], changed.fields[name]) && was <==>
        Fits(value.fields[name], properties.fields[name]) && now)
    ensures ChildrenFit(value, changed) && (name in value.fields ==> was)
      <==> ChildrenFit(value, properties) && (name in value.fields ==> now)
  {
  }

  /** The value is in the schema's own enumeration, if it has one. */
  predicate InOwnEnum(value: Json, schema: Json) {
    Has(schema, "enum") ==> Listed(value, schema.fields["enum"])
  }

  lemma {:induction false} EnumReplaced(value: Json, schema: Json, options: Json)
    requires schema.Obj?
    ensures Fits(value, With(schema, "enum", options)) && InOwnEnum(value, schema) <==>
      Fits(value, schema) && Listed(value, options)
  {
    var after := With(schema, "enum", options);
    assert forall key, default :: key != "enum" ==> Get(after, key, default) == Get(schema, key, default);
  }

  predicate RowNamed(row: Json, ids: seq<string>) {
    Has(row, "record_id") ==> Listed(row.fields["record_id"], Arr(IdList(ids)))
  }

  predicate RowOwn(row: Json, record: Json) {
    Has(row, "record_id") ==> InOwnEnum(row.fields["record_id"], record)
  }

  /** As many rows as ids, and only ids of the shard. */
  predicate ArrayOfShard(value: Json, ids: seq<string>) {
    value.Arr? && |value.items| == |ids| && forall i :: 0 <= i < |value.items| ==> RowNamed(value.items[i], ids)
  }

  /** What the schema itself asks of the number of rows and of their ids. */
  predicate ArrayWithinOwn(value: Json, results: Json, record: Json) {
    value.Arr? ==>
      && Within(|value.items| as real, Path(results, "minItems"), Path(results, "maxItems"))
      && forall i :: 0 <= i < |value.items| ==> RowOwn(value.items[i], record)
  }

  /** For a row, the new item schema with the own enumeration asks the same as the old one with the shard's ids. */
  ghost predicate RowReplaced(row: Json, now: Json, was: Json, record: Json, ids: seq<string>) {
    Fits(row, now) && RowOwn(row, record) <==> Fits(row, was) && RowNamed(row, ids)
  }

  lemma {:induction false} ItemsReplaced(value: Json, results: Json, item: Json, record: Json, ids: seq<string>)
    requires results.Obj? && Path(results, "items").Obj? && item.Obj? && Path(results, "type") == Str("array")
    requires forall row :: RowReplaced(row, item, Path(results, "items"), record, ids)
    ensures var after := With(With(With(results, "items", item), "minItems", Int(|ids|)), "maxItems", Int(|ids|));
      Fits(value, after) && ArrayWithinOwn(value, results, record) <==> Fits(value, results) && ArrayOfShard(value, ids)
  {
    var after := With(With(With(results, "items", item), "minItems", Int(|ids|)), "maxItems", Int(|ids|));
    assert after.fields["items"] == item && results.fields["items"] == Path(results, "items");
    assert Typed(value, Str("array")) <==> value.Arr?;
    if value.Arr? {
      forall i | 0 <= i < |value.items|
        ensures RowReplaced(value.items[i], item, Path(results, "items"), record, ids) {}
    }
  }

  /** The results of an output are within what its schema itself asks. */
  predicate WithinOwnLimits(output: Json, schema: Json) {
    Has(output, "results") ==> ArrayWithinOwn(output.fields["results"], ResultsSchema(schema), RecordSchema(schema))
  }

  predicate WithinShard(output: Json, ids: seq<string>) {
    Has(output, "results") ==> ArrayOfShard(output.fields["results"], ids)
  }

  /** For every schema, also one with limits of its own: specializing puts the number and the range of the shard's
      ids in the place of the schema's own limits on the array and on the ids, and changes nothing else. */
  lemma {:induction false} SpecializationIsExact(output: Json, schema: Json, ids: seq<string>)
    requires StrictResults(schema)
    ensures Fits(output, Narrowed(schema, ids)) && WithinOwnLimits(output, schema)
      <==> Fits(output, schema) && WithinShard(output, ids)
  {
    var item, record := ItemSchema(schema), RecordSchema(schema);
    var newRecord := With(record, "enum", Arr(IdList(ids)));
    var newItem := With(item, "properties", With(Path(item, "properties"), "record_id", newRecord));
    forall row ensures RowReplaced(row, newItem, item, record, ids) {
      if Has(row, "record_id") { EnumReplaced(row.fields["record_id"], record, Arr(IdList(ids))); }
      PropertyReplaced(row, item, "record_id", newRecord, RowOwn(row, record), RowNamed(row, ids));
    }
    var results := ResultsSchema(schema);
    var newResults := With(With(With(results, "items", newItem), "minItems", Int(|ids|)), "maxItems", Int(|ids|));
    if Has(output, "results") { ItemsReplaced(output.fields["results"], results, newItem, record, ids); }
    PropertyReplaced(output, schema, "results", newResults, WithinOwnLimits(output, schema), WithinShard(output, ids));
  }

  lemma {:induction false} NarrowedIsOfShard(output: Json, schema: Json, ids: seq<string>)
    requires StrictResults(schema) && Fits(output, Narrowed(schema, ids))
    ensures WithinShard(output, ids)
  {
    if Has(output, "results") {
      OutputFits(output, schema, ids);
      var rows := output.fields["results"].items;
      forall i | 0 <= i < |rows| ensures RowNamed(rows[i], ids) {
        assert RowOf(rows[i], ids);
        var k :| 0 <= k < |ids| && ids[k] == RowId(rows[i]);
        assert Same(rows[i].fields["record_id"], IdList(ids)[k]);
      }
    }
  }

  /** When specializing only narrows, exactly: what fits the specialized schema fits the schema itself if and only if
      its results are within the schema's own limits. */
  lemma {:induction false} NarrowsIffWithinOwnLimits(output: Json, schema: Json, ids: seq<string>)
    requires StrictResults(schema) && Fits(output, Narrowed(schema, ids))
    ensures Fits(output, schema) <==> WithinOwnLimits(output, schema)
  {
    NarrowedIsOfShard(output, schema, ids);
    SpecializationIsExact(output, schema, ids);
  }

  /** What can be checked before anything is run: the number of ids is within the schema's own bounds on the array, and
      every id is in its own enumeration of record ids. */
  predicate OwnLimitsAdmit(schema: Json, ids: seq<string>) {
    && Within(|ids| as real, Path(ResultsSchema(schema), "minItems"), Path(ResultsSchema(schema), "maxItems"))
    && forall i :: 0 <= i < |ids| ==> InOwnEnum(Str(ids[i]), RecordSchema(schema))
  }

  /** Results that name the shard's ids are within the own limits as soon as these admit the shard. */
  lemma {:induction false} AdmittedRows(rows: seq<Json>, schema: Json, ids: seq<string>)
    requires OwnLimitsAdmit(schema, ids) && |rows| == |ids|
    requires forall i :: 0 <= i < |rows| ==> RowOf(rows[i], ids)
    ensures ArrayWithinOwn(Arr(rows), ResultsSchema(schema), RecordSchema(schema))
  {
    forall i | 0 <= i < |rows| ensures RowOwn(rows[i], RecordSchema(schema)) {
      assert RowOf(rows[i], ids);
      var k :| 0 <= k < |ids| && ids[k] == RowId(rows[i]);
      assert rows[i].fields["record_id"] == Str(ids[k]);
    }
  }

  /** Rows within the own limits that cover the shard show that these limits admit it. */
  lemma {:induction false} CoveringRows(rows: seq<Json>, schema: Json, ids: seq<string>)
    requires ArrayWithinOwn(Arr(rows), ResultsSchema(schema), RecordSchema(schema)) && |rows| == |ids|
    requires (forall i :: 0 <= i < |rows| ==> RowOf(rows[i], ids)) && Covers(Observed(rows), ids)
    ensures OwnLimitsAdmit(schema, ids)
  {
    ObservedRows(rows, ids);
    forall k | 0 <= k < |ids| ensures InOwnEnum(Str(ids[k]), RecordSchema(schema)) {
      assert ids[k] in ids && ids[k] in Observed(rows);
      var i :| 0 <= i < |rows| && Observed(rows)[i] == ids[k];
      assert RowOwn(rows[i], RecordSchema(schema)) && rows[i].fields["record_id"] == Str(ids[k]);
    }
  }

  /** If the own limits admit the shard, every output that fits the specialized schema fits the schema itself. For an
      output that covers the shard that is also necessary. */
  lemma {:induction false} NarrowsIffOwnLimitsAdmit(output: Json, schema: Json, ids: seq<string>)
    requires StrictResults(schema) && Fits(output, Narrowed(schema, ids))
    ensures OwnLimitsAdmit(schema, ids) ==> Fits(output, schema)
    ensures ValidateCoverage(output, ids) == Pass ==> (Fits(output, schema) <==> OwnLimitsAdmit(schema, ids))
  {
    NarrowsIffWithinOwnLimits(output, schema, ids);
    if Has(output, "results") {
      OutputFits(output, schema, ids);
      var rows := output.fields["results"].items;
      assert output.fields["results"] == Arr(rows);
      if OwnLimitsAdmit(schema, ids) {
        AdmittedRows(rows, schema, ids);
      } else if ValidateCoverage(output, ids) == Pass && WithinOwnLimits(output, schema) {
        CoveringRows(rows, schema, ids);
      }
    }
  }

  /** If the own limits admit the shard, as they do in a schema that has none, then specializing adds exactly the number
      of rows and the range of ids. */
  lemma {:induction false} SpecializationOnlyNarrows(output: Json, schema: Json, ids: seq<string>)
    requires StrictResults(schema) && OwnLimitsAdmit(schema, ids)
    ensures Fits(output, Narrowed(schema, ids)) <==> Fits(output, schema) && WithinShard(output, ids)
  {
    SpecializationIsExact(output, schema, ids);
    if Fits(output, Narrowed(schema, ids)) {
      NarrowsIffOwnLimitsAdmit(output, schema, ids);
      NarrowedIsOfShard(output, schema, ids);
    }
  }

  // ----- A schema that is widened -----

  const RECORD := Obj(map["type" := Str("string")])
  const ROW :=
    Obj(map["type" := Str("object"), "required" := Arr([Str("record_id")]), "additionalProperties" := Bool(false),
                       "properties" := Obj(map["record_id" := RECORD])])
  const AT_MOST_ONE := Obj(map["type" := Str("array"), "items" := ROW, "maxItems" := Int(1)])
  const ONE_RESULT := Obj(map["type" := Str("object"), "properties" := Obj(map["results" := AT_MOST_ONE])])
  const TWO_RESULTS := Obj(map["results" := Arr([RowNaming("a"), RowNaming("b")])])

  function RecordOf(ids: seq<string>): Json {
    With(RECORD, "enum", Arr(IdList(ids)))
  }

  function RowSchemaOf(ids: seq<string>): Json {
    With(ROW, "properties", With(Path(ROW, "properties"), "record_id", RecordOf(ids)))
  }

  lemma {:induction false} RecordFitsNarrowed(id: string, ids: seq<string>)
    requires id in ids
    ensures Fits(Str(id), RecordOf(ids))
  {
    var record := RecordOf(ids);
    var k :| 0 <= k < |ids| && ids[k] == id;
    assert Same(Str(id), IdList(ids)[k]);
    assert record.fields.Keys == {"type", "enum"};
  }

  lemma {:induction false} ObjectFits(value: Json, schema: Json)
    requires schema.Obj? && schema.fields.Keys <= KEYWORDS && !Has(schema, "enum") && !Has(schema, "const")
    requires Path(schema, "type") == Str("object") && Path(schema, "properties").Obj?
    requires value.Obj? && KeysFit(value, schema) && ChildrenFit(value, Path(schema, "properties"))
    ensures Fits(value, schema)
  {
    assert Typed(value, Str("object"));
  }

  lemma {:induction false} ListFits(value: Json, schema: Json)
    requires schema.Obj? && schema.fields.Keys <= KEYWORDS && !Has(schema, "enum") && !Has(schema, "const")
    requires Path(schema, "type") == Str("array") && Path(schema, "items").Obj?
    requires value.Arr? && Within(|value.items| as real, Path(schema, "minItems"), Path(schema, "maxItems"))
    requires forall i :: 0 <= i < |value.items| ==> Fits(value.items[i], Path(schema, "items"))
    ensures Fits(value, schema)
  {
    assert Typed(value, Str("array"));
  }

  lemma {:induction false} RowFitsNarrowed(id: string, ids: seq<string>)
    requires id in ids
    ensures Fits(Obj(map["record_id" := Str(id)]), RowSchemaOf(ids))
  {
    RecordFitsNarrowed(id, ids);
    ObjectFits(Obj(map["record_id" := Str(id)]), RowSchemaOf(ids));
  }

  function ListSchemaOf(ids: seq<string>): Json {
    With(With(With(AT_MOST_ONE, "items", RowSchemaOf(ids)), "minItems", Int(|ids|)), "maxItems", Int(|ids|))
  }

  function RowNaming(id: string): Json {
    Obj(map["record_id" := Str(id)])
  }

  lemma {:induction false} PairFits(a: string, b: string, ids: seq<string>)
    requires a in ids && b in ids && |ids| == 2
    ensures Fits(Arr([RowNaming(a), RowNaming(b)]), ListSchemaOf(ids)) && ListSchemaOf(ids).Obj?
  {
    RowFitsNarrowed(a, ids);
    RowFitsNarrowed(b, ids);
    ListFits(Arr([RowNaming(a), RowNaming(b)]), ListSchemaOf(ids));
  }

  lemma {:induction false} OneResultIsStrict()
    ensures StrictResults(ONE_RESULT) && ResultsSchema(ONE_RESULT) == AT_MOST_ONE && ItemSchema(ONE_RESULT) == ROW
  {
    assert Path(ROW, "required").items[0] == Str("record_id");
  }

  lemma {:induction false} OneResultNarrowed(ids: seq<string>)
    requires StrictResults(ONE_RESULT) && ResultsSchema(ONE_RESULT) == AT_MOST_ONE && ItemSchema(ONE_RESULT) == ROW
    ensures var narrow := Narrowed(ONE_RESULT, ids);
      && narrow.fields.Keys == {"type", "properties"} && Path(narrow, "type") == Str("object")
      && Path(narrow, "properties") == Obj(map["results" := ListSchemaOf(ids)])
  {
    assert Path(ONE_RESULT, "properties").fields["results" := ListSchemaOf(ids)] == map["results" := ListSchemaOf(ids)];
  }

  lemma {:induction false} ResultsFit(value: Json, schema: Json, list: Json)
    requires schema.Obj? && schema.fields.Keys == {"type", "properties"} && Path(schema, "type") == Str("object")
    requires Path(schema, "properties") == Obj(map["results" := list]) && list.Obj?
    requires value.Obj? && Has(value, "results") && Fits(value.fields["results"], list)
    ensures Fits(value, schema)
  {
    ObjectFits(value, schema);
  }

  lemma {:induction false} TooManyRefused(value: Json, schema: Json, most: nat)
    requires value.Arr? && |value.items| > most && Path(schema, "maxItems") == Int(most)
    ensures !Fits(value, schema)
  {
    assert !Within(|value.items| as real, Get(schema, "minItems", Null), Get(schema, "maxItems", Null));
  }

  lemma {:induction false} ObjectDefined(schema: Json)
    requires schema.Obj? && schema.fields.Keys <= {"type", "properties", "required", "additionalProperties"}
    requires Path(schema, "type") == Str("object") && Path(schema, "properties").Obj?
    requires RequiredDefined(schema, Path(schema, "properties"))
    requires Path(schema, "additionalProperties") in {Null, Bool(false)}
    requires forall name :: name in Path(schema, "properties").fields ==>
      Defined(Path(schema, "properties").fields[name])
    ensures Defined(schema)
  {
    assert "type" in schema.fields;
  }

  lemma {:induction false} ListDefined(schema: Json)
    requires schema.Obj? && schema.fields.Keys <= {"type", "items", "minItems", "maxItems"}
    requires Path(schema, "type") == Str("array") && Defined(Path(schema, "items"))
    requires Natural(Path(schema, "minItems")) && Natural(Path(schema, "maxItems"))
    requires Ordered(schema, "minItems", "maxItems")
    ensures Defined(schema)
  {
    assert "type" in schema.fields;
  }

  lemma {:induction false} RecordDefined(schema: Json)
    requires schema.Obj? && schema.fields.Keys <= {"type", "enum"} && Path(schema, "type") == Str("string")
    requires Has(schema, "enum") ==> schema.fields["enum"].Arr? && schema.fields["enum"].items != []
    ensures Defined(schema)
  {
    assert "type" in schema.fields;
  }

  lemma {:induction false} RowDefined(record: Json, row: Json)
    requires row.Obj? && row.fields.Keys <= {"type", "properties", "required", "additionalProperties"}
    requires Defined(record)
    requires Path(row, "type") == Str("object") && Path(row, "properties") == Obj(map["record_id" := record])
    requires Path(row, "required") == Arr([Str("record_id")]) && Path(row, "additionalProperties") == Bool(false)
    ensures Defined(row)
  {
    ObjectDefined(row);
  }

  lemma {:induction false} RootDefined(list: Json, schema: Json)
    requires schema.Obj? && schema.fields.Keys == {"type", "properties"} && Path(schema, "type") == Str("object")
    requires Path(schema, "properties") == Obj(map["results" := list]) && Defined(list)
    ensures Defined(schema)
  {
    ObjectDefined(schema);
  }

  lemma {:induction false} TwoResultsFitNarrowed()
    requires StrictResults(ONE_RESULT)
    ensures Fits(TWO_RESULTS, Narrowed(ONE_RESULT, ["a", "b"])) && !Fits(TWO_RESULTS, ONE_RESULT)
  {
    OneResultIsStrict();
    OneResultNarrowed(["a", "b"]);
    PairFits("a", "b", ["a", "b"]);
    ResultsFit(TWO_RESULTS, Narrowed(ONE_RESULT, ["a", "b"]), ListSchemaOf(["a", "b"]));
    TooManyRefused(TWO_RESULTS.fields["results"], AT_MOST_ONE, 1);
  }

  lemma {:induction false} OneResultDefined()
    ensures Defined(ONE_RESULT)
  {
    RecordDefined(RECORD);
    RowDefined(RECORD, ROW);
    ListDefined(AT_MOST_ONE);
    RootDefined(AT_MOST_ONE, ONE_RESULT);
  }

  lemma {:induction false} RowSchemaDefined(ids: seq<string>)
    requires ids != []
    ensures Defined(RowSchemaOf(ids))
  {
    RecordDefined(RecordOf(ids));
    RowDefined(RecordOf(ids), RowSchemaOf(ids));
  }

  lemma {:induction false} ListSchemaDefined(ids: seq<string>)
    requires ids != []
    ensures Defined(ListSchemaOf(ids))
  {
    RowSchemaDefined(ids);
    ListDefined(ListSchemaOf(ids));
  }

  /** The shard's count replaces the schema's own bound: a checked schema that allows one result is specialized to two,
      and an output of two is then valid, although the schema itself refuses it. */
  lemma {:induction false} SpecializationMayWiden()
    ensures Defined(ONE_RESULT) && Specialize(ONE_RESULT, ["a", "b"]).Some?
    ensures Validates(TWO_RESULTS, Specialize(ONE_RESULT, ["a", "b"]).value) && !Fits(TWO_RESULTS, ONE_RESULT)
  {
    OneResultIsStrict();
    TwoResultsFitNarrowed();
    OneResultDefined();
    OneResultNarrowed(["a", "b"]);
    ListSchemaDefined(["a", "b"]);
    RootDefined(ListSchemaOf(["a", "b"]), Narrowed(ONE_RESULT, ["a", "b"]));
  }

  // ----- What a checked schema means -----

  /** No `properties` or `required` is given as an explicit null anywhere in the schema. */
  predicate NullFree(schema: Json)
    decreases schema
  {
    schema.Obj? ==>
      && (Has(schema, "properties") ==>
           var properties := schema.fields["properties"];
           properties.Obj? && forall name :: name in properties.fields ==> NullFree(properties.fields[name]))
      && (Has(schema, "required") ==> !schema.fields["required"].Null?)
      && (Has(schema, "items") ==> NullFree(schema.fields["items"]))
  }

  /** The type keyword names this type. */
  ghost predicate NamesType(given: Json, name: string) {
    given == Str(name) || (given.Arr? && Str(name) in given.items)
  }

  /** The names that fit a value. */
  ghost predicate OfType(value: Json, name: string) {
    match value
    case Null => name == "null"
    case Bool(_) => name == "boolean"
    case Int(_) => name == "integer" || name == "number"
    case Float(_) => name == "number"
    case Str(_) => name == "string"
    case Arr(_) => name == "array"
    case Obj(_) => name == "object"
  }

  /** Not below a lower bound that is a number, nor above such an upper bound. */
  ghost predicate Between(lower: Json, x: real, upper: Json) {
    (IsNumber(lower) ==> NumberOf(lower) <= x) && (IsNumber(upper) ==> x <= NumberOf(upper))
  }

  /** The reading of a schema's keywords, each on its own and absent ones asking for nothing. */
  ghost predicate Means(value: Json, schema: Json)
    decreases schema
  {
    && (Has(schema, "enum") ==> Listed(value, schema.fields["enum"]))
    && (Has(schema, "const") ==> Same(value, schema.fields["const"]))
    && (Has(schema, "type") ==> exists name :: NamesType(schema.fields["type"], name) && OfType(value, name))
    && (value.Obj? ==>
         var (properties, required) := (Path(schema, "properties"), Path(schema, "required"));
         && (required.Arr? ==> forall name :: Str(name) in required.items ==> name in value.fields)
         && (Path(schema, "additionalProperties") == Bool(false) ==>
              forall name :: name in value.fields ==> properties.Obj? && name in properties.fields)
         && (Has(schema, "properties") && properties.Obj? ==>
              forall name :: name in schema.fields["properties"].fields && name in value.fields ==>
                Means(value.fields[name], schema.fields["properties"].fields[name])))
    && (value.Arr? ==>
         && Between(Path(schema, "minItems"), |value.items| as real, Path(schema, "maxItems"))
         && (Has(schema, "items") && schema.fields["items"].Obj? ==>
              forall i :: 0 <= i < |value.items| ==> Means(value.items[i], schema.fields["items"])))
    && (value.Str? ==> Between(Path(schema, "minLength"), |value.text| as real, Path(schema, "maxLength")))
    && (IsNumber(value) ==> Between(Path(schema, "minimum"), NumberOf(value), Path(schema, "maximum")))
  }

  lemma {:induction false} TypesUnderstood(value: Json, expected: Json)
    requires TypeNames(expected).Some?
    ensures Typed(value, expected) <==> exists name :: NamesType(expected, name) && OfType(value, name)
  {
    if expected.Arr? {
      if Typed(value, expected) {
        var i :| 0 <= i < |expected.items| && Matches(value, expected.items[i].text);
        assert NamesType(expected, expected.items[i].text) && OfType(value, expected.items[i].text);
      }
      if name :| NamesType(expected, name) && OfType(value, name) {
        var i :| 0 <= i < |expected.items| && expected.items[i] == Str(name);
        assert expected.items[i].Str? && Matches(value, expected.items[i].text);
      }
    } else {
      assert NamesType(expected, expected.text);
    }
  }

  ghost predicate KeysMean(value: Json, schema: Json)
    requires value.Obj?
  {
    var (properties, required) := (Path(schema, "properties"), Path(schema, "required"));
    && (required.Arr? ==> forall name :: Str(name) in required.items ==> name in value.fields)
    && (Path(schema, "additionalProperties") == Bool(false) ==>
         forall name :: name in value.fields ==> properties.Obj? && name in properties.fields)
  }

  /** An explicit null where the keys of an object are looked at. */
  predicate NullKeys(schema: Json) {
    (Has(schema, "properties") && schema.fields["properties"].Null?)
      || (Has(schema, "required") && schema.fields["required"].Null?)
  }

  /** Validating the value comes across an object under a schema with such a null. */
  ghost predicate MeetsNull(value: Json, schema: Json)
    decreases schema
  {
    || (value.Obj? && NullKeys(schema))
    || (value.Obj? && Has(schema, "properties") && schema.fields["properties"].Obj? &&
         exists name :: name in schema.fields["properties"].fields && name in value.fields
                        && MeetsNull(value.fields[name], schema.fields["properties"].fields[name]))
    || (value.Arr? && Has(schema, "items") && schema.fields["items"].Obj? &&
         exists i :: 0 <= i < |value.items| && MeetsNull(value.items[i], schema.fields["items"]))
  }

  lemma {:induction false} KeysUnderstood(value: Json, schema: Json)
    requires Defined(schema) && value.Obj?
    ensures KeysFit(value, schema) <==> KeysMean(value, schema) && !NullKeys(schema)
  {
    if !NullKeys(schema) {
      var required := Get(schema, "required", Arr([]));
      assert Strings(required);
      if KeysMean(value, schema) {
        forall i | 0 <= i < |required.items| ensures required.items[i].text in value.fields {
          assert Has(schema, "required") && Str(required.items[i].text) == required.items[i];
          assert Str(required.items[i].text) in Path(schema, "required").items;
        }
      }
      if KeysFit(value, schema) && Path(schema, "required").Arr? {
        forall name | Str(name) in required.items ensures name in value.fields {
          var i :| 0 <= i < |required.items| && required.items[i] == Str(name);
          assert required.items[i].text in value.fields;
        }
      }
    }
  }

  ghost predicate Understood(value: Json, schema: Json) {
    Fits(value, schema) <==> Means(value, schema) && !MeetsNull(value, schema)
  }

  lemma {:induction false} ObjectUnderstood(value: Json, schema: Json)
    requires Defined(schema) && value.Obj? && (KeysFit(value, schema) <==> KeysMean(value, schema) && !NullKeys(schema))
    requires Typed(value, Get(schema, "type", Null))
      <==> exists name :: NamesType(Get(schema, "type", Null), name) && OfType(value, name)
    requires forall name :: name in Keyed(Path(schema, "properties")) && name in value.fields ==>
      Understood(value.fields[name], Path(schema, "properties").fields[name])
    ensures Understood(value, schema)
  {
  }

  function Keyed(j: Json): set<string> {
    if j.Obj? then j.fields.Keys else {}
  }

  lemma {:induction false} ArrayUnderstood(value: Json, schema: Json)
    requires Defined(schema) && value.Arr?
    requires Typed(value, Get(schema, "type", Null))
      <==> exists name :: NamesType(Get(schema, "type", Null), name) && OfType(value, name)
    requires Path(schema, "items").Obj? ==> forall i :: 0 <= i < |value.items| ==>
      Understood(value.items[i], Path(schema, "items"))
    ensures Understood(value, schema)
  {
  }

  /** A schema that passed the check before launch is at fault later only through an explicit null: a value is accepted
      if and only if it is what the keywords mean and validating it meets no such null. */
  lemma {:induction false} CheckedSchemasAreUnderstood(value: Json, schema: Json)
    requires Defined(schema)
    ensures Fits(value, schema) <==> Means(value, schema) && !MeetsNull(value, schema)
    decreases schema
  {
    TypesUnderstood(value, Get(schema, "type", Null));
    if value.Obj? {
      KeysUnderstood(value, schema);
      var properties := Path(schema, "properties");
      forall name | name in Keyed(properties) && name in value.fields
        ensures Understood(value.fields[name], properties.fields[name]) {
        CheckedSchemasAreUnderstood(value.fields[name], properties.fields[name]);
      }
      ObjectUnderstood(value, schema);
    } else if value.Arr? {
      if Path(schema, "items").Obj? {
        forall i | 0 <= i < |value.items| ensures Understood(value.items[i], Path(schema, "items")) {
          CheckedSchemasAreUnderstood(value.items[i], Path(schema, "items"));
        }
      }
      ArrayUnderstood(value, schema);
    }
  }

  lemma {:induction false} NullFreeMeetsNone(value: Json, schema: Json)
    requires schema.Obj? && NullFree(schema)
    ensures !MeetsNull(value, schema)
    decreases schema
  {
    if value.Obj? && Has(schema, "properties") {
      var properties := schema.fields["properties"];
      forall name | name in properties.fields && name in value.fields && properties.fields[name].Obj?
        ensures !MeetsNull(value.fields[name], properties.fields[name]) {
        NullFreeMeetsNone(value.fields[name], properties.fields[name]);
      }
    }
    if value.Arr? && Has(schema, "items") && schema.fields["items"].Obj? {
      forall i | 0 <= i < |value.items| ensures !MeetsNull(value.items[i], schema.fields["items"]) {
        NullFreeMeetsNone(value.items[i], schema.fields["items"]);
      }
    }
  }

  /** A schema that is not free of such nulls has a value on which one is met. */
  lemma {:induction false} NullIsMet(schema: Json) returns (value: Json)
    requires Defined(schema) && !NullFree(schema)
    ensures MeetsNull(value, schema)
    decreases schema
  {
    var properties, items := Path(schema, "properties"), Path(schema, "items");
    if NullKeys(schema) {
      value := Obj(map[]);
    } else if name :| name in Keyed(properties) && !NullFree(properties.fields[name]) {
      var inner := NullIsMet(properties.fields[name]);
      value := Obj(map[name := inner]);
      assert value.fields[name] == inner;
    } else {
      assert items.Obj? && !NullFree(items);
      var inner := NullIsMet(items);
      value := Arr([inner]);
      assert value.items[0] == inner;
    }
  }

  /** What a caller can check beforehand, and no less will do. */
  lemma {:induction false} NullFreeIffNoneMet(schema: Json)
    requires Defined(schema)
    ensures NullFree(schema) <==> forall value :: !MeetsNull(value, schema)
  {
    if NullFree(schema) {
      forall value ensures !MeetsNull(value, schema) { NullFreeMeetsNone(value, schema); }
    } else {
      var met := NullIsMet(schema);
      assert MeetsNull(met, schema);
    }
  }

  const NULL_PROPERTIES := Obj(map["type" := Str("object"), "properties" := Null])

  /** The check lets an explicit null pass, and then no object is ever accepted, though the schema asks for nothing. */
  lemma {:induction false} NullPropertiesRefuseEveryObject(value: Json)
    requires value.Obj?
    ensures Defined(NULL_PROPERTIES) && Means(value, NULL_PROPERTIES) && !Fits(value, NULL_PROPERTIES)
  {
    assert TypeNames(Path(NULL_PROPERTIES, "type")) == Some({"object"});
    assert NamesType(Path(NULL_PROPERTIES, "type"), "object") && OfType(value, "object");
    assert NULL_PROPERTIES.fields.Keys == {"type", "properties"};
  }
}

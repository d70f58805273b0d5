/** Making a caller's schema ready for a worker: an object schema that also requires the
    field for what the worker did not check. */
module SchemaPrepare {
  import opened Text
  import opened Json
  import opened JsonPointer
  import opened SchemaWalk

  const UNCHECKED_FIELD: string := "what_i_did_not_check"

  datatype Refusal = NotAnObject | OtherType(t: Value) | BadProperties | BadRequired

  function StringArraySchema(): Value {
    Obj(map["type" := Str("array"), "items" := Obj(map["type" := Str("string")])])
  }

  /** The prepared schema as a function of the caller's. */
  function Prepared(schema: Value): Result<Value, Refusal> {
    if !schema.Obj? then Err(NotAnObject)
    else if Get(schema, "type") != None && Get(schema, "type") != Some(Str("object")) then
      Err(OtherType(schema.fields["type"]))
    else if Get(schema, "properties").Some? && !schema.fields["properties"].Obj? then Err(BadProperties)
    else if Get(schema, "required").Some? && !schema.fields["required"].Arr? then Err(BadRequired)
    else Ok(Obj(schema.fields
                ["type" := Str("object")]
                ["properties" := Obj(WithUnchecked(Properties(schema)))]
                ["required" := Arr(WithRequired(Required(schema)))]))
  }

  function WithUnchecked(props: map<string, Value>): map<string, Value> {
    if UNCHECKED_FIELD in props then props else props[UNCHECKED_FIELD := StringArraySchema()]
  }

  function WithRequired(names: seq<Value>): seq<Value> {
    if Str(UNCHECKED_FIELD) in names then names else names + [Str(UNCHECKED_FIELD)]
  }

  /** `prepare`: edits a copy of the schema's map in place. */
  method Prepare(schema: Value) returns (r: Result<Value, Refusal>)
    ensures r == Prepared(schema)
  {
    if !schema.Obj? {
      return Err(NotAnObject);
    }
    var fields := schema.fields;
    if "type" !in fields {
      fields := fields["type" := Str("object")];
    } else if fields["type"] != Str("object") {
      return Err(OtherType(fields["type"]));
    }
    if "properties" !in fields {
      fields := fields["properties" := Obj(map[])];
    }
    if !fields["properties"].Obj? {
      return Err(BadProperties);
    }
    var props := fields["properties"].fields;
    if UNCHECKED_FIELD !in props {
      props := props[UNCHECKED_FIELD := StringArraySchema()];
    }
    fields := fields["properties" := Obj(props)];
    if "required" !in fields {
      fields := fields["required" := Arr([])];
    }
    if !fields["required"].Arr? {
      return Err(BadRequired);
    }
    var required := fields["required"].items;
    var present := false;
    for i := 0 to |required|
      invariant present <==> Str(UNCHECKED_FIELD) in required[..i]
    {
      if required[i] == Str(UNCHECKED_FIELD) {
        present := true;
      }
    }
    assert required[..|required|] == required;
    if !present {
      required := required + [Str(UNCHECKED_FIELD)];
    }
    r := Ok(Obj(fields["required" := Arr(required)]));
    assert r.value.fields == Prepared(schema).value.fields;
  }

  // ----- which schemas are accepted -----

  /** The member is there and not of this shape. */
  predicate Misfit(schema: Value, key: string, shape: Value -> bool) {
    schema.Obj? && key in schema.fields && !shape(schema.fields[key])
  }

  /** A schema is accepted exactly if it is an object whose `type`, `properties` and `required`,
      as far as it has them, are `"object"`, an object and an array; the first of these that it
      breaks is the reason given. */
  lemma AcceptedSchemas(schema: Value)
    ensures var r := Prepared(schema);
            var otherType := Misfit(schema, "type", t => t == Str("object"));
            var badProperties := Misfit(schema, "properties", (p: Value) => p.Obj?);
            var badRequired := Misfit(schema, "required", (q: Value) => q.Arr?);
            && (r.Ok? <==> schema.Obj? && !otherType && !badProperties && !badRequired)
            && (r == Err(NotAnObject) <==> !schema.Obj?)
            && (forall t :: r == Err(OtherType(t)) <==> otherType && t == schema.fields["type"])
            && (r == Err(BadProperties) <==> schema.Obj? && !otherType && badProperties)
            && (r == Err(BadRequired) <==> schema.Obj? && !otherType && !badProperties && badRequired)
  {
  }

  /** Every other member is kept as it was. */
  lemma OthersAreKept(schema: Value, key: string)
    requires Prepared(schema).Ok? && key !in {"type", "properties", "required"}
    ensures Get(Prepared(schema).value, key) == Get(schema, key)
  {
  }

  // ----- what it admits -----

  /** A list of strings: what an undeclared unchecked-field must hold. */
  predicate IsStringArray(v: Value) {
    v.Arr? && forall i :: 0 <= i < |v.items| ==> v.items[i].Str?
  }

  lemma ConformsToString(v: Value)
    ensures Conforms(Obj(map["type" := Str("string")]), v) <==> v.Str?
  {
    var s := Obj(map["type" := Str("string")]);
    assert Get(s, "type") == Some(Str("string")) && Get(s, "enum") == None;
  }

  lemma ConformsToStringArray(v: Value)
    ensures Conforms(StringArraySchema(), v) <==> IsStringArray(v)
  {
    var s, item := StringArraySchema(), Obj(map["type" := Str("string")]);
    assert Get(s, "type") == Some(Str("array")) && Get(s, "items") == Some(item) && Get(s, "enum") == None;
    assert Required(s) == [] && Properties(s) == map[];
    if v.Arr? {
      forall i | 0 <= i < |v.items| ensures Conforms(item, v.items[i]) <==> v.items[i].Str? {
        ConformsToString(v.items[i]);
      }
    }
  }

  /** What a value must have for the prepared schema and not for the caller's. */
  predicate CarriesUnchecked(schema: Value, v: Value) {
    && v.Obj? && "what_i_did_not_check" in v.fields
    && ("what_i_did_not_check" !in Properties(schema) ==> IsStringArray(v.fields["what_i_did_not_check"]))
  }

  lemma PreparedKeywords(schema: Value)
    requires Prepared(schema).Ok?
    ensures var p := Prepared(schema).value;
            Get(p, "type") == Some(Str("object"))
            && Properties(p) == WithUnchecked(Properties(schema))
            && Required(p) == WithRequired(Required(schema))
            && Get(p, "enum") == Get(schema, "enum") && Get(p, "items") == Get(schema, "items")
  {
  }

  /** Preparation is an exact strengthening: a value conforms to the prepared schema if and
      only if it conforms to the caller's and carries the unchecked-field. */
  lemma {:induction false} PreparedIsExact(schema: Value, v: Value)
    requires Prepared(schema).Ok?
    ensures Conforms(Prepared(schema).value, v) <==> Conforms(schema, v) && CarriesUnchecked(schema, v)
  {
    var p := Prepared(schema).value;
    PreparedKeywords(schema);
    assert TypeFits(p, v) <==> v.Obj?;
    assert v.Obj? ==> TypeFits(schema, v);
    if v.Obj? {
      MembersMatch(Properties(schema), v.fields);
      RequiredMatch(Required(schema), v.fields);
    }
  }

  lemma RequiredMatch(names: seq<Value>, fields: map<string, Value>)
    ensures (forall name :: Str(name) in WithRequired(names) ==> name in fields)
            <==> (forall name :: Str(name) in names ==> name in fields) && UNCHECKED_FIELD in fields
  {
    assert Str(UNCHECKED_FIELD) in WithRequired(names);
    assert forall name :: Str(name) in names ==> Str(name) in WithRequired(names);
    assert forall name :: Str(name) in WithRequired(names) ==> Str(name) in names || name == UNCHECKED_FIELD;
  }

  ghost predicate MembersConform(props: map<string, Value>, fields: map<string, Value>) {
    forall name :: name in props && name in fields ==> Conforms(props[name], fields[name])
  }

  lemma MembersMatch(props: map<string, Value>, fields: map<string, Value>)
    ensures UNCHECKED_FIELD in fields ==>
              (MembersConform(WithUnchecked(props), fields)
               <==> MembersConform(props, fields)
                    && (UNCHECKED_FIELD !in props ==> IsStringArray(fields[UNCHECKED_FIELD])))
  {
    hide Conforms;
    var all := WithUnchecked(props);
    if UNCHECKED_FIELD in fields && UNCHECKED_FIELD !in props {
      ConformsToStringArray(fields[UNCHECKED_FIELD]);
      assert all[UNCHECKED_FIELD] == StringArraySchema();
      assert forall name :: name in props ==> name in all && all[name] == props[name];
      assert forall name :: name in all ==> name in props || name == UNCHECKED_FIELD;
    }
  }

  /** Preparing twice is preparing once. */
  lemma PreparedIsIdempotent(schema: Value)
    requires Prepared(schema).Ok?
    ensures Prepared(Prepared(schema).value) == Prepared(schema)
  {
    var p := Prepared(schema).value;
    PreparedKeywords(schema);
    assert WithUnchecked(Properties(p)) == Properties(p);
    assert WithRequired(Required(p)) == Required(p);
    assert Prepared(p).value.fields == p.fields;
  }
}

/** What a schema means, keyword by keyword: which values each keyword admits on its own, and
    that a schema admits what all its keywords admit. */
module SchemaKeywords {
  import opened Text
  import opened Json
  import opened SchemaWalk

  /** A schema of one keyword. */
  function Only(keyword: string, argument: Value): Value {
    Obj(map[keyword := argument])
  }

  lemma OnlyOne(keyword: string, argument: Value, other: string)
    ensures Get(Only(keyword, argument), other) == if other == keyword then Some(argument) else None
  {
  }

  lemma OnlyType(argument: Value, v: Value)
    ensures Conforms(Only("type", argument), v) <==> TypeFits(Only("type", argument), v)
  {
    var s := Only("type", argument);
    OnlyOne("type", argument, "enum");
    OnlyOne("type", argument, "required");
    OnlyOne("type", argument, "properties");
    OnlyOne("type", argument, "items");
    hide TypeFits, Get, Only;
    assert Required(s) == [] && Properties(s) == map[];
  }

  /** `type` and the seven names, each by the values it admits. */
  lemma TypeNames(v: Value)
    ensures Conforms(Only("type", Str("object")), v) <==> v.Obj?
    ensures Conforms(Only("type", Str("array")), v) <==> v.Arr?
    ensures Conforms(Only("type", Str("string")), v) <==> v.Str?
    ensures Conforms(Only("type", Str("number")), v) <==> v.Num?
    ensures Conforms(Only("type", Str("integer")), v) <==> v.Num? && v.n.integral
    ensures Conforms(Only("type", Str("boolean")), v) <==> v.Bool?
    ensures Conforms(Only("type", Str("null")), v) <==> v.Null?
  {
    hide Conforms, HasType, Kind;
    NamedType("object", v);
    NamedType("array", v);
    NamedType("string", v);
    NamedType("number", v);
    NamedType("integer", v);
    NamedType("boolean", v);
    NamedType("null", v);
    hide Only;
    SevenTypes(v);
  }

  lemma NamedType(name: string, v: Value)
    ensures Conforms(Only("type", Str(name)), v) <==> HasType(name, v)
  {
    hide Conforms, HasType;
    OnlyType(Str(name), v);
  }

  lemma SevenTypes(v: Value)
    ensures (HasType("object", v) <==> v.Obj?) && (HasType("array", v) <==> v.Arr?)
    ensures (HasType("string", v) <==> v.Str?) && (HasType("number", v) <==> v.Num?)
    ensures (HasType("integer", v) <==> v.Num? && v.n.integral) && (HasType("boolean", v) <==> v.Bool?)
    ensures HasType("null", v) <==> v.Null?
  {
  }

  /** A name that is none of the seven admits nothing. */
  lemma UnknownTypeAdmitsNothing(name: string, v: Value)
    requires name !in {"object", "array", "string", "number", "integer", "boolean", "null"}
    ensures !Conforms(Only("type", Str(name)), v)
  {
    NamedType(name, v);
    hide Conforms;
  }

  /** A list of types admits what one of its names admits; an entry that is no string admits
      nothing. */
  lemma TypeListAdmits(names: seq<Value>, v: Value)
    ensures Conforms(Only("type", Arr(names)), v)
            <==> exists i :: 0 <= i < |names| && names[i].Str? && Conforms(Only("type", names[i]), v)
  {
    OnlyType(Arr(names), v);
    forall i | 0 <= i < |names| && names[i].Str?
      ensures Conforms(Only("type", names[i]), v) <==> HasType(names[i].s, v)
    {
      NamedType(names[i].s, v);
    }
    hide Conforms, HasType;
  }

  /** Anything else under `type` admits nothing. */
  lemma OtherTypeAdmitsNothing(argument: Value, v: Value)
    requires !argument.Str? && !argument.Arr?
    ensures !Conforms(Only("type", argument), v)
  {
    OnlyType(argument, v);
    hide Conforms;
  }

  /** The kind a wrong type is reported with is a type that admits the value. */
  lemma KindAdmits(v: Value)
    ensures Conforms(Only("type", Str(Kind(v))), v)
  {
    TypeNames(v);
    hide Conforms;
  }

  lemma EnumAdmits(options: seq<Value>, v: Value)
    ensures Conforms(Only("enum", Arr(options)), v) <==> v in options
  {
    var s := Only("enum", Arr(options));
    assert Get(s, "type") == None && Get(s, "items") == None && Get(s, "enum") == Some(Arr(options));
    assert Required(s) == [] && Properties(s) == map[];
    hide Only, Get;
  }

  lemma RequiredAdmits(names: seq<Value>, v: Value)
    ensures Conforms(Only("required", Arr(names)), v)
            <==> (v.Obj? ==> forall name :: Str(name) in names ==> name in v.fields)
  {
    var s := Only("required", Arr(names));
    assert Get(s, "type") == None && Get(s, "items") == None && Get(s, "enum") == None;
    assert Required(s) == names && Properties(s) == map[];
    hide Only, Get, Required;
  }

  lemma PropertiesAdmit(props: map<string, Value>, v: Value)
    ensures Conforms(Only("properties", Obj(props)), v)
            <==> (v.Obj? ==> forall name :: name in props && name in v.fields ==> Conforms(props[name], v.fields[name]))
  {
    var s := Only("properties", Obj(props));
    assert Get(s, "type") == None && Get(s, "items") == None && Get(s, "enum") == None;
    assert Required(s) == [] && Properties(s) == props;
    hide Only, Get, Properties;
  }

  lemma ItemsAdmit(sub: Value, v: Value)
    ensures Conforms(Only("items", sub), v)
            <==> (v.Arr? ==> forall i :: 0 <= i < |v.items| ==> Conforms(sub, v.items[i]))
  {
    var s := Only("items", sub);
    assert Get(s, "type") == None && Get(s, "enum") == None && Get(s, "items") == Some(sub);
    assert Required(s) == [] && Properties(s) == map[];
    hide Only, Get;
  }

  /** A wrong type hides everything else there is to say about a value and what is in it. */
  lemma WrongTypeIsAll(schema: Value, v: Value, f: Finding)
    requires !TypeFits(schema, v)
    ensures Reported(schema, v, [], f) <==> f == Finding("/", WrongType(Get(schema, "type").value, Kind(v)))
  {
    assert Get(schema, "type").Some?;
    hide TypeFits, Kind;
    if Reported(schema, v, [], f) {
      var tokens :| f.at == Shown([] + tokens) && Reports(schema, v, tokens, f.problem);
      assert tokens == [];
    }
    if f == Finding("/", WrongType(Get(schema, "type").value, Kind(v))) {
      var root: seq<string> := [];
      assert root + root == root && Shown(root + root) == "/";
      assert Reports(schema, v, [], f.problem);
    }
  }

  // ----- together -----

  const KEYWORDS: set<string> := {"type", "enum", "required", "properties", "items"}

  /** A schema admits what each of its keywords admits on its own; other members say nothing, and
      a schema that is no object admits everything. */
  ghost predicate EachAdmits(schema: Value, v: Value) {
    forall keyword :: keyword in KEYWORDS && Get(schema, keyword).Some?
                      ==> Conforms(Only(keyword, Get(schema, keyword).value), v)
  }

  lemma {:induction false} KeywordsCombine(schema: Value, v: Value)
    ensures Conforms(schema, v) <==> EachAdmits(schema, v)
  {
    TypeAlone(schema, v);
    EnumAlone(schema, v);
    RequiredAlone(schema, v);
    PropertiesAlone(schema, v);
    ItemsAlone(schema, v);
    EachOfFive(schema, v);
    hide TypeFits, Get, Only, Required, Properties, EachAdmits;
  }

  /** The keyword admits the value, if the schema has it. */
  ghost predicate Admits(schema: Value, keyword: string, v: Value) {
    Get(schema, keyword).Some? ==> Conforms(Only(keyword, Get(schema, keyword).value), v)
  }

  lemma EachOfFive(schema: Value, v: Value)
    ensures EachAdmits(schema, v)
            <==> Admits(schema, "type", v) && Admits(schema, "enum", v) && Admits(schema, "required", v)
                 && Admits(schema, "properties", v) && Admits(schema, "items", v)
  {
    hide Conforms, Get, Only;
    assert KEYWORDS == {"type", "enum", "required", "properties", "items"};
  }

  lemma TypeAlone(schema: Value, v: Value)
    ensures Admits(schema, "type", v) <==> TypeFits(schema, v)
  {
    var t := Get(schema, "type");
    if t.Some? {
      OnlyType(t.value, v);
      assert Get(Only("type", t.value), "type") == t;
    }
    hide Conforms, HasType;
  }

  lemma EnumAlone(schema: Value, v: Value)
    ensures Admits(schema, "enum", v) <==> forall options :: Get(schema, "enum") == Some(Arr(options)) ==> v in options
  {
    var e := Get(schema, "enum");
    if e.Some? && e.value.Arr? {
      EnumAdmits(e.value.items, v);
      hide Conforms;
    } else if e.Some? {
      IdleKeyword("enum", e.value, v);
      hide Conforms;
    }
  }

  /** An argument of the wrong shape restricts nothing. */
  lemma IdleKeyword(keyword: string, argument: Value, v: Value)
    requires (keyword in {"enum", "required"} && !argument.Arr?) || (keyword == "properties" && !argument.Obj?)
    ensures Conforms(Only(keyword, argument), v)
  {
    var s := Only(keyword, argument);
    assert Get(s, "type") == None && Get(s, "items") == None;
    assert Get(s, "enum").Some? ==> !Get(s, "enum").value.Arr?;
    assert Required(s) == [] && Properties(s) == map[];
    hide Only, Get;
  }

  lemma RequiredAlone(schema: Value, v: Value)
    ensures Admits(schema, "required", v)
            <==> (v.Obj? ==> forall name :: Str(name) in Required(schema) ==> name in v.fields)
  {
    var r := Get(schema, "required");
    if r.Some? && r.value.Arr? {
      RequiredAdmits(r.value.items, v);
      hide Conforms;
    } else if r.Some? {
      IdleKeyword("required", r.value, v);
      hide Conforms;
    }
  }

  lemma PropertiesAlone(schema: Value, v: Value)
    ensures Admits(schema, "properties", v)
            <==> (v.Obj? ==> forall name :: name in Properties(schema) && name in v.fields
                                            ==> Conforms(Properties(schema)[name], v.fields[name]))
  {
    var p := Get(schema, "properties");
    if p.Some? && p.value.Obj? {
      PropertiesAdmit(p.value.fields, v);
      hide Conforms;
    } else if p.Some? {
      IdleKeyword("properties", p.value, v);
      hide Conforms;
    }
  }

  lemma ItemsAlone(schema: Value, v: Value)
    ensures Admits(schema, "items", v)
            <==> (v.Arr? && Get(schema, "items").Some? ==>
                    forall i :: 0 <= i < |v.items| ==> Conforms(Get(schema, "items").value, v.items[i]))
  {
    var s := Get(schema, "items");
    if s.Some? {
      ItemsAdmit(s.value, v);
      hide Conforms;
    }
  }
}

/** The validator of typed results: a JSON Schema subset (`type`, `enum`, `required`,
    `properties`, `items`), every finding under the JSON pointer of its site. */
module SchemaWalk {
  import opened Text
  import opened Json
  import opened JsonPointer

  datatype Problem =
    | WrongType(expected: Value, got: string)
    | NotInEnum(options: seq<Value>)
    | MissingField(name: string)

  datatype Finding = Finding(at: string, problem: Problem)

  /** The `&mut Vec<String>` the walk pushes onto. */
  class Findings {
    var list: seq<Finding>

    constructor ()
      ensures list == []
    {
      list := [];
    }
  }

  // ----- one node -----

  function Kind(v: Value): string {
    match v
    case Null => "null"
    case Bool(_) => "boolean"
    case Num(_) => "number"
    case Str(_) => "string"
    case Arr(_) => "array"
    case Obj(_) => "object"
  }

  predicate HasType(ty: string, v: Value) {
    if ty == "object" then v.Obj?
    else if ty == "array" then v.Arr?
    else if ty == "string" then v.Str?
    else if ty == "number" then v.Num?
    else if ty == "integer" then v.Num? && v.n.integral
    else if ty == "boolean" then v.Bool?
    else if ty == "null" then v.Null?
    else false
  }

  /** The value has one of the types the schema lists, if it lists any. */
  predicate TypeFits(schema: Value, v: Value) {
    match Get(schema, "type")
    case None => true
    case Some(Arr(names)) => exists i :: 0 <= i < |names| && names[i].Str? && HasType(names[i].s, v)
    case Some(Str(name)) => HasType(name, v)
    case Some(_) => false
  }

  function Properties(schema: Value): map<string, Value> {
    match Get(schema, "properties")
    case Some(Obj(props)) => props
    case _ => map[]
  }

  function Required(schema: Value): seq<Value> {
    match Get(schema, "required")
    case Some(Arr(names)) => names
    case _ => []
  }

  /** The sub-schema that governs the child a token names. */
  function SubSchema(schema: Value, v: Value, token: string): (r: Option<Value>)
    ensures r.Some? ==> r.value < schema
  {
    if v.Obj? && token in Properties(schema) then Some(Properties(schema)[token])
    else if v.Arr? then Get(schema, "items")
    else None
  }

  /** A way this value, here, breaks this schema. A wrong type hides the others. */
  predicate Breaks(schema: Value, v: Value, p: Problem) {
    match p
    case WrongType(expected, got) =>
      !TypeFits(schema, v) && Get(schema, "type") == Some(expected) && got == Kind(v)
    case NotInEnum(options) =>
      TypeFits(schema, v) && Get(schema, "enum") == Some(Arr(options)) && v !in options
    case MissingField(name) =>
      TypeFits(schema, v) && v.Obj? && Str(name) in Required(schema) && name !in v.fields
  }

  // ----- the whole value -----

  /** The value conforms: its type fits, it is one of the listed values, it has the required
      members, and every member and element that has a sub-schema conforms to it. */
  ghost predicate Conforms(schema: Value, v: Value)
    decreases schema
  {
    && TypeFits(schema, v)
    && (forall options :: Get(schema, "enum") == Some(Arr(options)) ==> v in options)
    && (v.Obj? ==> forall name :: Str(name) in Required(schema) ==> name in v.fields)
    && (v.Obj? ==> forall name :: name in Properties(schema) && name in v.fields ==>
          Conforms(Properties(schema)[name], v.fields[name]))
    && (v.Arr? && Get(schema, "items").Some? ==> forall i :: 0 <= i < |v.items| ==>
          Conforms(Get(schema, "items").value, v.items[i]))
  }

  /** Problem `p` is at the end of the path `tokens`, below values of fitting types. */
  ghost predicate Reports(schema: Value, v: Value, tokens: seq<string>, p: Problem)
    decreases tokens
  {
    if tokens == [] then Breaks(schema, v, p)
    else
      && TypeFits(schema, v)
      && SubSchema(schema, v, tokens[0]).Some? && StepInto(v, tokens[0]).Some?
      && Reports(SubSchema(schema, v, tokens[0]).value, StepInto(v, tokens[0]).value, tokens[1..], p)
  }

  /** How a site is printed: the root as `/`, every other one as its pointer. */
  function Shown(tokens: seq<string>): string {
    if tokens == [] then "/" else PathString(tokens)
  }

  /** `f` is what the walk has to say about something at or below the site `prefix`. */
  ghost predicate Reported(schema: Value, v: Value, prefix: seq<string>, f: Finding) {
    exists tokens :: f.at == Shown(prefix + tokens) && Reports(schema, v, tokens, f.problem)
  }

  ghost predicate HasProblem(schema: Value, v: Value) {
    exists tokens, p :: Reports(schema, v, tokens, p)
  }

  /** A value fails to conform exactly when there is a problem at some site. */
  lemma ConformsIffNoProblem(schema: Value, v: Value)
    ensures Conforms(schema, v) <==> !HasProblem(schema, v)
  {
    if !Conforms(schema, v) {
      var tokens, p := FindProblem(schema, v);
    } else if HasProblem(schema, v) {
      var tokens, p :| Reports(schema, v, tokens, p);
      ConformsHasNoProblem(schema, v, tokens, p);
    }
  }

  lemma {:induction false} ConformsHasNoProblem(schema: Value, v: Value, tokens: seq<string>, p: Problem)
    requires Conforms(schema, v)
    ensures !Reports(schema, v, tokens, p)
    decreases tokens
  {
    if tokens != [] && SubSchema(schema, v, tokens[0]).Some? && StepInto(v, tokens[0]).Some? {
      ConformsHasNoProblem(SubSchema(schema, v, tokens[0]).value, StepInto(v, tokens[0]).value, tokens[1..], p);
    }
  }

  lemma {:induction false} FindProblem(schema: Value, v: Value) returns (tokens: seq<string>, p: Problem)
    requires !Conforms(schema, v)
    ensures Reports(schema, v, tokens, p)
    decreases schema
  {
    tokens := [];
    if !TypeFits(schema, v) {
      p := WrongType(Get(schema, "type").value, Kind(v));
    } else if options :| Get(schema, "enum") == Some(Arr(options)) && v !in options {
      p := NotInEnum(options);
    } else if v.Obj? && exists name :: Str(name) in Required(schema) && name !in v.fields {
      var name :| Str(name) in Required(schema) && name !in v.fields;
      p := MissingField(name);
    } else {
      var token := FailingChild(schema, v);
      var below;
      below, p := FindProblem(SubSchema(schema, v, token).value, StepInto(v, token).value);
      tokens := [token] + below;
      assert tokens[1..] == below;
    }
  }

  lemma FailingChild(schema: Value, v: Value) returns (token: string)
    requires !Conforms(schema, v) && TypeFits(schema, v)
    requires forall options :: Get(schema, "enum") == Some(Arr(options)) ==> v in options
    requires v.Obj? ==> forall name :: Str(name) in Required(schema) ==> name in v.fields
    ensures SubSchema(schema, v, token).Some? && StepInto(v, token).Some?
            && !Conforms(SubSchema(schema, v, token).value, StepInto(v, token).value)
  {
    hide TypeFits;
    if v.Obj? {
      token :| token in Properties(schema) && token in v.fields
        && !Conforms(Properties(schema)[token], v.fields[token]);
    } else {
      var i :| 0 <= i < |v.items| && !Conforms(Get(schema, "items").value, v.items[i]);
      token := Decimal(i);
      DecimalIsIndex(i);
    }
  }

  // ----- the walk -----

  /** What the walk finds below the members in `done`. */
  ghost predicate BelowMembers(done: set<string>, props: map<string, Value>, fields: map<string, Value>,
                               prefix: seq<string>, f: Finding)
    requires done <= props.Keys
  {
    exists name :: name in done && name in fields && Reported(props[name], fields[name], prefix + [name], f)
  }

  /** What the walk finds below the first `k` elements. */
  ghost predicate BelowItems(k: nat, sub: Value, items: seq<Value>, prefix: seq<string>, f: Finding)
    requires k <= |items|
  {
    exists i :: 0 <= i < k && Reported(sub, items[i], prefix + [Decimal(i)], f)
  }

  /** What the walk finds at the site itself. */
  predicate AtSite(schema: Value, v: Value, prefix: seq<string>, f: Finding) {
    f.at == Shown(prefix) && Breaks(schema, v, f.problem)
  }

  lemma ReportedHere(schema: Value, v: Value, prefix: seq<string>, f: Finding)
    requires AtSite(schema, v, prefix, f)
    ensures Reported(schema, v, prefix, f)
  {
    assert prefix + [] == prefix;
    assert Reports(schema, v, [], f.problem);
  }

  lemma ReportedBelow(schema: Value, v: Value, token: string, prefix: seq<string>, f: Finding)
    requires TypeFits(schema, v) && BelowToken(schema, v, token, prefix, f)
    ensures Reported(schema, v, prefix, f)
  {
    hide SubSchema, StepInto, TypeFits, Shown, Breaks;
    var sub, child := SubSchema(schema, v, token).value, StepInto(v, token).value;
    var tokens :| f.at == Shown(prefix + [token] + tokens) && Reports(sub, child, tokens, f.problem);
    var path := [token] + tokens;
    assert prefix + path == prefix + [token] + tokens;
    assert path[0] == token && path[1..] == tokens;
    assert Reports(schema, v, path, f.problem);
  }

  ghost predicate BelowToken(schema: Value, v: Value, token: string, prefix: seq<string>, f: Finding) {
    && SubSchema(schema, v, token).Some? && StepInto(v, token).Some?
    && Reported(SubSchema(schema, v, token).value, StepInto(v, token).value, prefix + [token], f)
  }

  lemma ReportedSplits(schema: Value, v: Value, prefix: seq<string>, f: Finding) returns (token: string)
    requires Reported(schema, v, prefix, f) && !AtSite(schema, v, prefix, f)
    ensures TypeFits(schema, v) && BelowToken(schema, v, token, prefix, f)
  {
    hide SubSchema, StepInto, TypeFits, Shown, Breaks;
    var tokens :| f.at == Shown(prefix + tokens) && Reports(schema, v, tokens, f.problem);
    assert prefix + [] == prefix;
    assert tokens != [];
    token := tokens[0];
    assert prefix + tokens == prefix + [token] + tokens[1..];
  }

  /** The walk's three sources of findings are all there is. */
  lemma ReportedCases(schema: Value, v: Value, prefix: seq<string>, f: Finding)
    ensures Reported(schema, v, prefix, f) <==>
              AtSite(schema, v, prefix, f)
              || (TypeFits(schema, v) && v.Obj?
                  && BelowMembers(Properties(schema).Keys, Properties(schema), v.fields, prefix, f))
              || (TypeFits(schema, v) && v.Arr? && Get(schema, "items").Some?
                  && BelowItems(|v.items|, Get(schema, "items").value, v.items, prefix, f))
  {
    if Reported(schema, v, prefix, f) && !AtSite(schema, v, prefix, f) {
      var token := ReportedSplits(schema, v, prefix, f);
      hide Reported, Breaks, TypeFits;
      if v.Arr? { IndexSpelling(token); }
    }
    if AtSite(schema, v, prefix, f) {
      ReportedHere(schema, v, prefix, f);
    }
    MembersReported(schema, v, prefix, f);
    ItemsReported(schema, v, prefix, f);
  }

  lemma MembersReported(schema: Value, v: Value, prefix: seq<string>, f: Finding)
    ensures TypeFits(schema, v) && v.Obj?
            && BelowMembers(Properties(schema).Keys, Properties(schema), v.fields, prefix, f)
            ==> Reported(schema, v, prefix, f)
  {
    hide Reported, TypeFits;
    if TypeFits(schema, v) && v.Obj? && BelowMembers(Properties(schema).Keys, Properties(schema), v.fields, prefix, f) {
      var name :| name in Properties(schema) && name in v.fields
        && Reported(Properties(schema)[name], v.fields[name], prefix + [name], f);
      ReportedBelow(schema, v, name, prefix, f);
    }
  }

  lemma ItemsReported(schema: Value, v: Value, prefix: seq<string>, f: Finding)
    ensures TypeFits(schema, v) && v.Arr? && Get(schema, "items").Some?
            && BelowItems(|v.items|, Get(schema, "items").value, v.items, prefix, f)
            ==> Reported(schema, v, prefix, f)
  {
    hide Reported, TypeFits;
    if TypeFits(schema, v) && v.Arr? && Get(schema, "items").Some?
       && BelowItems(|v.items|, Get(schema, "items").value, v.items, prefix, f) {
      var i :| 0 <= i < |v.items| && Reported(Get(schema, "items").value, v.items[i], prefix + [Decimal(i)], f);
      DecimalIsIndex(i);
      ReportedBelow(schema, v, Decimal(i), prefix, f);
    }
  }

  lemma ChildPath(prefix: seq<string>, token: string)
    ensures PathString(prefix + [token]) == PathString(prefix) + "/" + Escape(token)
  {
    assert (prefix + [token])[..|prefix|] == prefix;
  }

  lemma DecimalNeedsNoEscape(n: nat)
    ensures Escape(Decimal(n)) == Decimal(n)
  {
    NothingToReplace(Decimal(n), '~', "~0");
    NothingToReplace(Decimal(n), '/', "~1");
  }

  lemma {:induction false} NothingToReplace(s: string, c: char, with: string)
    requires c !in s
    ensures ReplaceChar(s, c, with) == s
  {
    if s != [] { NothingToReplace(s[1..], c, with); }
  }

  /** `walk`. Members are visited in any order. */
  method Walk(schema: Value, value: Value, path: string, ghost prefix: seq<string>, errors: Findings)
    returns (ghost added: seq<Finding>)
    requires path == PathString(prefix)
    modifies errors
    ensures errors.list == old(errors.list) + added
    ensures forall f :: f in added <==> Reported(schema, value, prefix, f)
    decreases schema, 1
  {
    hide Reported, Breaks;
    forall f ensures Reported(schema, value, prefix, f) <==>
              AtSite(schema, value, prefix, f)
              || (TypeFits(schema, value) && value.Obj?
                  && BelowMembers(Properties(schema).Keys, Properties(schema), value.fields, prefix, f))
              || (TypeFits(schema, value) && value.Arr? && Get(schema, "items").Some?
                  && BelowItems(|value.items|, Get(schema, "items").value, value.items, prefix, f))
    {
      ReportedCases(schema, value, prefix, f);
    }
    added := WalkSite(schema, value, path, prefix, errors);
    if !TypeFits(schema, value) {
      return;
    }
    if value.Obj? {
      ghost var more := WalkMembers(schema, value.fields, path, prefix, errors);
      added := added + more;
    }
    if value.Arr? && Get(schema, "items").Some? {
      ghost var more := WalkItems(schema, value.items, path, prefix, errors);
      added := added + more;
    }
  }

  /** The findings at the node itself. */
  method WalkSite(schema: Value, value: Value, path: string, ghost prefix: seq<string>, errors: Findings)
    returns (ghost added: seq<Finding>)
    requires path == PathString(prefix)
    modifies errors
    ensures errors.list == old(errors.list) + added
    ensures forall f :: f in added <==> AtSite(schema, value, prefix, f)
    decreases schema, 0
  {
    added := [];
    var at := if path == "" then "/" else path;
    if !TypeFits(schema, value) {
      var f := Finding(at, WrongType(Get(schema, "type").value, Kind(value)));
      errors.list := errors.list + [f];
      added := [f];
      return;
    }
    var listed := Get(schema, "enum");
    if listed.Some? && listed.value.Arr? && value !in listed.value.items {
      var f := Finding(at, NotInEnum(listed.value.items));
      errors.list := errors.list + [f];
      added := [f];
    }
    if value.Obj? {
      var names := Required(schema);
      var i := 0;
      while i < |names|
        invariant 0 <= i <= |names|
        invariant errors.list == old(errors.list) + added
        invariant forall f ::
          f in added <==> (AtSite(schema, value, prefix, f)
                           && (f.problem.MissingField? ==> Str(f.problem.name) in names[..i]))
      {
        if names[i].Str? && names[i].s !in value.fields {
          var f := Finding(at, MissingField(names[i].s));
          errors.list := errors.list + [f];
          added := added + [f];
        }
        i := i + 1;
      }
    }
  }

  method WalkMembers(schema: Value, fields: map<string, Value>, path: string, ghost prefix: seq<string>,
                     errors: Findings) returns (ghost added: seq<Finding>)
    requires path == PathString(prefix)
    modifies errors
    ensures errors.list == old(errors.list) + added
    ensures forall f :: f in added <==> BelowMembers(Properties(schema).Keys, Properties(schema), fields, prefix, f)
    decreases schema, 0
  {
    hide Reported;
    added := [];
    var props := Properties(schema);
    var names := props.Keys;
    while names != {}
      invariant names <= props.Keys
      invariant errors.list == old(errors.list) + added
      invariant forall f :: f in added <==> BelowMembers(props.Keys - names, props, fields, prefix, f)
    {
      var name :| name in names;
      names := names - {name};
      if name in fields {
        ChildPath(prefix, name);
        ghost var more :=
          Walk(props[name], fields[name], path + "/" + Escape(name), prefix + [name], errors);
        added := added + more;
      }
    }
  }

  method WalkItems(schema: Value, items: seq<Value>, path: string, ghost prefix: seq<string>, errors: Findings)
    returns (ghost added: seq<Finding>)
    requires path == PathString(prefix) && Get(schema, "items").Some?
    modifies errors
    ensures errors.list == old(errors.list) + added
    ensures forall f :: f in added <==> BelowItems(|items|, Get(schema, "items").value, items, prefix, f)
    decreases schema, 0
  {
    hide Reported;
    added := [];
    var sub := Get(schema, "items").value;
    var i := 0;
    while i < |items|
      invariant 0 <= i <= |items|
      invariant errors.list == old(errors.list) + added
      invariant forall f :: f in added <==> BelowItems(i, sub, items, prefix, f)
    {
      ChildPath(prefix, Decimal(i));
      DecimalNeedsNoEscape(i);
      ghost var more := Walk(sub, items[i], path + "/" + Decimal(i), prefix + [Decimal(i)], errors);
      added := added + more;
      i := i + 1;
    }
  }

  /** `validate`: exactly the problems of `value`, each under its site; none if and only if
      the value conforms. */
  method Validate(schema: Value, value: Value) returns (errors: seq<Finding>)
    ensures forall f :: f in errors <==> Reported(schema, value, [], f)
    ensures errors == [] <==> Conforms(schema, value)
  {
    var list := new Findings();
    ghost var added := Walk(schema, value, "", [], list);
    errors := list.list;
    ConformsIffNoProblem(schema, value);
    if HasProblem(schema, value) {
      var tokens, p :| Reports(schema, value, tokens, p);
      assert [] + tokens == tokens;
      assert Reported(schema, value, [], Finding(Shown(tokens), p));
    }
    if errors != [] {
      assert Reported(schema, value, [], errors[0]);
    }
  }

  // ----- the printed sites -----

  /** Every reported site other than the root reads back, by RFC 6901, to exactly the
      sub-value that breaks its sub-schema. */
  lemma PointerIsRight(schema: Value, v: Value, f: Finding)
    requires Reported(schema, v, [], f)
    ensures exists tokens, sub ::
              f.at == Shown(tokens) && Evaluate(v, tokens).Some?
              && Breaks(sub, Evaluate(v, tokens).value, f.problem)
              && GovernedBy(schema, v, tokens, sub)
              && (tokens != [] ==> ParsePointer(f.at) == Some(tokens))
  {
    var tokens :| f.at == Shown([] + tokens) && Reports(schema, v, tokens, f.problem);
    assert [] + tokens == tokens;
    var sub := SiteOfReport(schema, v, tokens, f.problem);
    ParseOfPathString(tokens);
  }

  /** `sub` is the part of `schema` that speaks about the value at `tokens`. */
  predicate GovernedBy(schema: Value, v: Value, tokens: seq<string>, sub: Value)
    decreases tokens
  {
    if tokens == [] then sub == schema
    else
      && SubSchema(schema, v, tokens[0]).Some? && StepInto(v, tokens[0]).Some?
      && GovernedBy(SubSchema(schema, v, tokens[0]).value, StepInto(v, tokens[0]).value, tokens[1..], sub)
  }

  lemma {:induction false} SiteOfReport(schema: Value, v: Value, tokens: seq<string>, p: Problem)
    returns (sub: Value)
    requires Reports(schema, v, tokens, p)
    ensures GovernedBy(schema, v, tokens, sub)
    ensures Evaluate(v, tokens).Some? && Breaks(sub, Evaluate(v, tokens).value, p)
    decreases tokens
  {
    if tokens == [] {
      sub := schema;
    } else {
      sub := SiteOfReport(SubSchema(schema, v, tokens[0]).value, StepInto(v, tokens[0]).value, tokens[1..], p);
    }
  }

  /** The printed site is the site's own pointer exactly when the site is not the root: the
      root is printed as `/`, which RFC 6901 reads as the member with the empty name. */
  lemma RootIsMisprinted(tokens: seq<string>)
    ensures ParsePointer(Shown(tokens)) == Some(tokens) <==> tokens != []
    ensures ParsePointer(Shown([])) == Some([""])
  {
    ParseOfPathString(tokens);
    SlashAlone();
  }
}

/** Translation of JSON Schemas into Python types (config/mlx-outlines-server/server.py). */
module SchemaTypes {
  import opened Strings

  // ---- Values, schemas, types ----

  datatype Json =
    | Null
    | Bool(b: bool)
    | Number(x: real)
    | Str(s: string)
    | Arr(elems: seq<Json>)
    | Obj(fields: map<string, Json>)

  /** A schema's `type`, `enum`, `items`, `properties` and `required`; a property map may be empty or absent. */
  datatype Schema = Schema(
    kind: Option<string>, choices: Option<seq<Json>>, items: Option<Schema>,
    properties: map<string, Schema>, required: set<string>)

  datatype Type =
    | TString
    | TInteger
    | TNumber
    | TBoolean
    | TEnum(members: map<string, Json>)
    | TList(elem: Type)
    | TAnyDict
    | TModel(fields: map<string, Field>)

  datatype Field = Field(ty: Type, required: bool)

  // ---- The translation ----

  /** `{str(v): v for v in values}`: of two choices with one string form the later wins. */
  function EnumMembers(choices: seq<Json>, form: Json -> string): map<string, Json> {
    if choices == [] then map[]
    else EnumMembers(choices[..|choices| - 1], form)[form(choices[|choices| - 1]) := choices[|choices| - 1]]
  }

  method BuildEnum(choices: seq<Json>, form: Json -> string) returns (members: map<string, Json>)
    ensures members == EnumMembers(choices, form)
  {
    members := map[];
    for i := 0 to |choices|
      invariant members == EnumMembers(choices[..i], form)
    {
      assert choices[..i + 1][..i] == choices[..i];
      members := members[form(choices[i]) := choices[i]];
    }
    assert choices[..|choices|] == choices;
  }

  /** `_resolve_type`; items that are not named are strings. */
  function ResolveType(s: Schema, form: Json -> string): Type {
    var kind := if s.kind.Some? then s.kind.value else "string";
    if s.choices.Some? then TEnum(EnumMembers(s.choices.value, form))
    else if kind == "array" then TList(if s.items.Some? then ResolveType(s.items.value, form) else TString)
    else if kind == "object" then
      if s.properties != map[] then
        TModel(map k | k in s.properties :: Field(ResolveType(s.properties[k], form), k in s.required))
      else TAnyDict
    else if kind == "integer" then TInteger
    else if kind == "number" then TNumber
    else if kind == "boolean" then TBoolean
    else TString
  }

  /** `_json_schema_to_pydantic`, which takes the schema for an object's whatever its `type`. */
  function ToModel(s: Schema, form: Json -> string): Type {
    TModel(map k | k in s.properties :: Field(ResolveType(s.properties[k], form), k in s.required))
  }

  // ---- What the types accept ----

  predicate IsInteger(x: real) {
    x.Floor as real == x
  }

  /** A model ignores fields it does not know and takes null for an optional field. */
  predicate Accepts(t: Type, v: Json) {
    match t
    case TString => v.Str?
    case TInteger => v.Number? && IsInteger(v.x)
    case TNumber => v.Number?
    case TBoolean => v.Bool?
    case TEnum(members) => v in members.Values
    case TList(elem) => v.Arr? && forall i :: 0 <= i < |v.elems| ==> Accepts(elem, v.elems[i])
    case TAnyDict => v.Obj?
    case TModel(fields) =>
      v.Obj? && forall k :: k in fields ==>
        if k in v.fields then (!fields[k].required && v.fields[k].Null?) || Accepts(fields[k].ty, v.fields[k])
        else !fields[k].required
  }

  // ---- What the schema means: sections 6.1.1, 6.1.2 and 6.5.3 of JSON Schema Validation 2020-12 ----

  predicate HasKind(kind: string, v: Json) {
    match kind
    case "string" => v.Str?
    case "integer" => v.Number? && IsInteger(v.x)
    case "number" => v.Number?
    case "boolean" => v.Bool?
    case "array" => v.Arr?
    case "object" => v.Obj?
    case "null" => v.Null?
    case _ => false
  }

  predicate Validates(s: Schema, v: Json) {
    && (s.kind.Some? ==> HasKind(s.kind.value, v))
    && (s.choices.Some? ==> v in s.choices.value)
    && (v.Arr? && s.items.Some? ==> forall i :: 0 <= i < |v.elems| ==> Validates(s.items.value, v.elems[i]))
    && (v.Obj? ==> s.required <= v.fields.Keys)
    && (v.Obj? ==> forall k :: k in s.properties && k in v.fields ==> Validates(s.properties[k], v.fields[k]))
  }

  /** The value with null taken for absence in every optional field the schema declares. */
  function DropNulls(s: Schema, v: Json): Json {
    if s.choices.Some? then v
    else if v.Arr? && s.items.Some? then
      Arr(seq(|v.elems|, i requires 0 <= i < |v.elems| => DropNulls(s.items.value, v.elems[i])))
    else if v.Obj? then
      Obj(map k | k in v.fields && !(k in s.properties && k !in s.required && v.fields[k].Null?) ::
            if k in s.properties then DropNulls(s.properties[k], v.fields[k]) else v.fields[k])
    else v
  }

  // ---- The two agree ----

  /** Two choices with the same string form are the same choice. */
  ghost predicate DistinctForms(choices: seq<Json>, form: Json -> string) {
    forall i, j :: 0 <= i < j < |choices| && form(choices[i]) == form(choices[j]) ==> choices[i] == choices[j]
  }

  /** The schemas the translation is made for, at every level. */
  ghost predicate Supported(s: Schema, form: Json -> string) {
    && s.kind.Some? && s.kind.value in {"string", "integer", "number", "boolean", "array", "object"}
    && (s.choices.Some? ==>
          && DistinctForms(s.choices.value, form)
          && s.items.None? && s.properties == map[] && s.required == {}
          && forall c :: c in s.choices.value ==> HasKind(s.kind.value, c))
    && (s.kind.value == "array" && s.choices.None? ==> s.items.Some?)
    && s.required <= s.properties.Keys
    && (s.items.Some? ==> Supported(s.items.value, form))
    && (forall k :: k in s.properties ==> Supported(s.properties[k], form))
  }

  lemma {:induction false} EnumKeeps(choices: seq<Json>, form: Json -> string)
    ensures forall f :: f in EnumMembers(choices, form) ==>
              EnumMembers(choices, form)[f] in choices && form(EnumMembers(choices, form)[f]) == f
    ensures forall c :: c in choices ==> form(c) in EnumMembers(choices, form)
  {
    if choices != [] {
      var n := |choices| - 1;
      EnumKeeps(choices[..n], form);
      assert choices == choices[..n] + [choices[n]];
    }
  }

  /** The generated enum accepts exactly the schema's choices if and only if distinct choices have distinct forms. */
  lemma EnumIsExact(choices: seq<Json>, form: Json -> string)
    ensures (forall v :: Accepts(TEnum(EnumMembers(choices, form)), v) <==> v in choices)
        <==> DistinctForms(choices, form)
  {
    var members := EnumMembers(choices, form);
    EnumKeeps(choices, form);
    if DistinctForms(choices, form) {
      forall v ensures v in members.Values <==> v in choices {
        if v in choices {
          var i, j :| 0 <= i < |choices| && choices[i] == v && 0 <= j < |choices| && choices[j] == members[form(v)];
          assert members[form(v)] == v;
        }
      }
    } else {
      var i, j :| 0 <= i < j < |choices| && form(choices[i]) == form(choices[j]) && choices[i] != choices[j];
      var lost := if members[form(choices[i])] == choices[i] then choices[j] else choices[i];
      assert lost in choices;
      assert !Accepts(TEnum(members), lost);
    }
  }

  /** A value is accepted by the generated type exactly when, nulls dropped, it validates against the schema. */
  lemma {:induction false} TranslationIsExact(s: Schema, form: Json -> string, v: Json)
    requires Supported(s, form)
    ensures Accepts(ResolveType(s, form), v) <==> Validates(s, DropNulls(s, v))
    decreases s
  {
    if s.choices.Some? {
      EnumIsExact(s.choices.value, form);
    } else if s.kind.value == "array" {
      if v.Arr? {
        forall i | 0 <= i < |v.elems|
          ensures Accepts(ResolveType(s.items.value, form), v.elems[i])
              <==> Validates(s.items.value, DropNulls(s, v).elems[i]) {
          TranslationIsExact(s.items.value, form, v.elems[i]);
        }
      }
    } else if s.kind.value == "object" {
      ModelIsExact(s, form, v);
    }
  }

  lemma {:induction false} ModelIsExact(s: Schema, form: Json -> string, v: Json)
    requires s.choices.None? && s.kind == Some("object") && s.required <= s.properties.Keys
    requires forall k :: k in s.properties ==> Supported(s.properties[k], form)
    ensures Accepts(ToModel(s, form), v) <==> Validates(s, DropNulls(s, v))
    decreases s, 0
  {
    if v.Obj? {
      forall k | k in s.properties && k in v.fields
        ensures Accepts(ResolveType(s.properties[k], form), v.fields[k]) <==>
                Validates(s.properties[k], DropNulls(s.properties[k], v.fields[k])) {
        TranslationIsExact(s.properties[k], form, v.fields[k]);
      }
    }
  }

  /**
   * The model drops every required name that is not among the properties, so, unless nothing is accepted at all,
   * it is exact if and only if there is no such name.
   */
  lemma RequiredMustBeDeclared(s: Schema, form: Json -> string, v: Json)
    requires s.choices.None? && s.kind == Some("object")
    requires forall k :: k in s.properties ==> Supported(s.properties[k], form)
    requires Accepts(ToModel(s, form), v)
    ensures (forall w :: Accepts(ToModel(s, form), w) <==> Validates(s, DropNulls(s, w)))
        <==> s.required <= s.properties.Keys
  {
    if s.required <= s.properties.Keys {
      forall w ensures Accepts(ToModel(s, form), w) <==> Validates(s, DropNulls(s, w)) {
        ModelIsExact(s, form, w);
      }
    } else {
      var name :| name in s.required && name !in s.properties;
      var w := Obj(v.fields - {name});
      assert Accepts(ToModel(s, form), w);
      assert name !in DropNulls(s, w).fields;
    }
  }

  // ---- Schemas that leave things out ----

  /** A number is an integer if nothing comes after its point. */
  lemma IntegersAreWhole(n: int, fraction: real)
    requires 0.0 <= fraction < 1.0
    ensures Accepts(TInteger, Number(n as real + fraction)) <==> fraction == 0.0
  {
    assert (n as real + fraction).Floor == n;
  }

  /**
   * A schema without a type, or with one the translation does not know, is for strings; an array without
   * a schema for its items is one of strings; an object without properties may be any.
   */
  lemma WithoutDetails(s: Schema, form: Json -> string, v: Json)
    requires s.choices.None?
    ensures s.kind.None? ==> (Accepts(ResolveType(s, form), v) <==> v.Str?)
    ensures s.kind.Some? && s.kind.value !in {"array", "object", "integer", "number", "boolean"} ==>
              (Accepts(ResolveType(s, form), v) <==> v.Str?)
    ensures s.kind == Some("array") && s.items.None? ==>
              (Accepts(ResolveType(s, form), v) <==> v.Arr? && forall i :: 0 <= i < |v.elems| ==> v.elems[i].Str?)
    ensures s.kind == Some("object") && s.properties == map[] ==> (Accepts(ResolveType(s, form), v) <==> v.Obj?)
  {
  }

  /** So a schema without a type is not translated exactly: it asks for nothing. */
  lemma UntypedIsNarrowed(v: Json, form: Json -> string)
    ensures var s := Schema(None, None, None, map[], {});
      Validates(s, v) && (Accepts(ResolveType(s, form), v) <==> v.Str?)
  {
  }
}

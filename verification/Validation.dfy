/** `validate_tool_arguments`: coercion and checking of tool arguments against
    the JSON Schema subset the tools use. */
module Validation {
  import opened JsonText

  /** An integer (i64 or u64), or a finite f64 that is not held as one. */
  datatype Number = Integer(i: int) | Float(r: real)

  datatype Value =
    | Null
    | Bool(b: bool)
    | Num(n: Number)
    | Str(s: string)
    | Arr(items: seq<Value>)
    | Obj(fields: map<string, Value>)

  datatype F64 = Finite(r: real) | NonFinite

  /** Number parsing (of the trimmed text) and printing, kept abstract. */
  datatype Lib = Lib(parseF64: string -> Option<F64>, parseI64: string -> Option<int>, show: Number -> string)

  // ---------------------------------------------------------------------
  // Reading a schema
  // ---------------------------------------------------------------------

  /** `schema.get(key)`: nothing for a non-object. */
  function Field(schema: Value, key: string): (r: Option<Value>)
    ensures r.Some? ==> schema.Obj? && key in schema.fields && r.value == schema.fields[key] && r.value < schema
  {
    if schema.Obj? && key in schema.fields then Some(schema.fields[key]) else None
  }

  function StringItems(items: seq<Value>): seq<string> {
    if items == [] then []
    else (if items[0].Str? then [items[0].s] else []) + StringItems(items[1..])
  }

  function SchemaTypes(schema: Value): seq<string> {
    match Field(schema, "type")
    case Some(Str(s)) => [s]
    case Some(Arr(items)) => StringItems(items)
    case _ => []
  }

  /** The object under `properties`, if it is one. */
  function Properties(schema: Value): (r: Option<map<string, Value>>)
    ensures r.Some? ==> forall k :: k in r.value ==> r.value[k] < schema
  {
    var p := Field(schema, "properties");
    if p.Some? && p.value.Obj? then Some(p.value.fields) else None
  }

  /** The schema of additional properties, if it is an object. */
  function Additional(schema: Value): (r: Option<Value>)
    ensures r.Some? ==> r.value < schema
  {
    var a := Field(schema, "additionalProperties");
    if a.Some? && a.value.Obj? then a else None
  }

  /** The schema of array item `i`: positional for a list, shared otherwise. */
  function ItemSchema(schema: Value, i: nat): (r: Option<Value>)
    ensures r.Some? ==> r.value < schema
  {
    match Field(schema, "items")
    case Some(Arr(schemas)) => if i < |schemas| then Some(schemas[i]) else None
    case other => other
  }

  // ---------------------------------------------------------------------
  // Coercion
  // ---------------------------------------------------------------------

  /** `to_ascii_lowercase` */
  function Lower(s: string): string {
    seq(|s|, i requires 0 <= i < |s| => if 'A' <= s[i] <= 'Z' then (s[i] as int + 32) as char else s[i])
  }

  function TrimLower(s: string): string {
    Lower(Trim(s))
  }

  const TWO_53: real := 9007199254740992.0

  /** A whole number below 2^53 in magnitude becomes an integer. */
  function NumberValue(n: F64): Value {
    match n
    case NonFinite => Null
    case Finite(r) =>
      if r == r.Floor as real && -TWO_53 < r < TWO_53 then Num(Integer(r.Floor)) else Num(Float(r))
  }

  /** The conversion one requested type asks for, if it applies. */
  function Convert(lib: Lib, ty: string, v: Value): Option<Value> {
    if ty == "number" && v.Str? && lib.parseF64(v.s).Some? then Some(NumberValue(lib.parseF64(v.s).value))
    else if ty == "integer" && v.Str? && lib.parseI64(v.s).Some? then Some(Num(Integer(lib.parseI64(v.s).value)))
    else if ty == "boolean" && v.Str? && TrimLower(v.s) == "true" then Some(Bool(true))
    else if ty == "boolean" && v.Str? && TrimLower(v.s) == "false" then Some(Bool(false))
    else if ty == "string" && v.Num? then Some(Str(lib.show(v.n)))
    else if ty == "string" && v.Bool? then Some(Str(if v.b then "true" else "false"))
    else None
  }

  /** The first type whose conversion applies wins. */
  function Primitive(lib: Lib, types: seq<string>, v: Value): Value {
    if types == [] then v
    else if Convert(lib, types[0], v).Some? then Convert(lib, types[0], v).value
    else Primitive(lib, types[1..], v)
  }

  /** The loop over the requested types. */
  method ConvertFirst(lib: Lib, types: seq<string>, v: Value) returns (r: Value)
    ensures r == Primitive(lib, types, v)
  {
    assert types[0..] == types;
    for i := 0 to |types|
      invariant Primitive(lib, types[i..], v) == Primitive(lib, types, v)
    {
      assert types[i..][1..] == types[i + 1..];
      var converted := Convert(lib, types[i], v);
      if converted.Some? {
        return converted.value;
      }
    }
    r := v;
  }

  function Coerce(lib: Lib, schema: Value, v: Value): Value
    decreases schema, 1
  {
    Children(lib, schema, Primitive(lib, SchemaTypes(schema), v))
  }

  /** Children are coerced only where `properties` is an object. */
  function Children(lib: Lib, schema: Value, v: Value): Value
    decreases schema, 0
  {
    var props := Properties(schema);
    if props.None? then v
    else match v
      case Obj(fields) => Obj(map k | k in fields :: CoerceField(lib, schema, props.value, k, fields[k]))
      case Arr(items) => Arr(seq(|items|, i requires 0 <= i < |items| => CoerceItem(lib, schema, i, items[i])))
      case _ => v
  }

  function CoerceField(lib: Lib, schema: Value, props: map<string, Value>, k: string, v: Value): Value
    requires forall key :: key in props ==> props[key] < schema
    decreases schema, 0, 0
  {
    if k in props then Coerce(lib, props[k], v)
    else if Additional(schema).Some? then Coerce(lib, Additional(schema).value, v)
    else v
  }

  function CoerceItem(lib: Lib, schema: Value, i: nat, v: Value): Value
    decreases schema, 0, 0
  {
    if ItemSchema(schema, i).Some? then Coerce(lib, ItemSchema(schema, i).value, v) else v
  }

  /** `coerce`: the value, then its children. */
  method CoerceValue(lib: Lib, schema: Value, v: Value) returns (r: Value)
    ensures r == Coerce(lib, schema, v)
    decreases schema, 3
  {
    hide Primitive, Children, SchemaTypes;
    r := ConvertFirst(lib, SchemaTypes(schema), v);
    r := CoerceChildren(lib, schema, r);
  }

  /** `coerce_children`: nothing without `properties`. */
  method CoerceChildren(lib: Lib, schema: Value, v: Value) returns (r: Value)
    ensures r == Children(lib, schema, v)
    decreases schema, 2
  {
    hide Coerce;
    var props := Properties(schema);
    if props.None? {
      return v;
    }
    match v {
      case Obj(fields) =>
        var out := CoerceFields(lib, schema, props.value, fields);
        return Obj(out);
      case Arr(items) =>
        var out := CoerceItems(lib, schema, items);
        return Arr(out);
      case _ => return v;
    }
  }

  /** The declared properties in turn, then the additional ones. */
  method CoerceFields(lib: Lib, schema: Value, props: map<string, Value>, fields: map<string, Value>)
    returns (out: map<string, Value>)
    requires forall k :: k in props ==> props[k] < schema
    ensures out == map k | k in fields :: CoerceField(lib, schema, props, k, fields[k])
    decreases schema, 1
  {
    hide Coerce;
    out := fields;
    var todo := props.Keys;
    while todo != {}
      invariant todo <= props.Keys && out.Keys == fields.Keys
      invariant forall k :: k in fields ==>
                  out[k] == if k in props && k !in todo then Coerce(lib, props[k], fields[k]) else fields[k]
      decreases todo
    {
      var key :| key in todo;
      if key in out {
        var coerced := CoerceValue(lib, props[key], out[key]);
        out := out[key := coerced];
      }
      todo := todo - {key};
    }
    if Additional(schema).Some? {
      out := CoerceUndeclared(lib, schema, props, fields, out);
    }
  }

  method CoerceUndeclared(lib: Lib, schema: Value, props: map<string, Value>, fields: map<string, Value>,
                          declared: map<string, Value>) returns (out: map<string, Value>)
    requires forall k :: k in props ==> props[k] < schema
    requires Additional(schema).Some? && declared.Keys == fields.Keys
    requires forall k :: k in fields ==>
               declared[k] == if k in props then CoerceField(lib, schema, props, k, fields[k]) else fields[k]
    ensures out == map k | k in fields :: CoerceField(lib, schema, props, k, fields[k])
    decreases schema, 0
  {
    hide Coerce;
    out := declared;
    var rest := fields.Keys - props.Keys;
    while rest != {}
      invariant rest <= fields.Keys - props.Keys && out.Keys == fields.Keys
      invariant forall k :: k in fields ==>
                  out[k] == if k in rest then fields[k] else CoerceField(lib, schema, props, k, fields[k])
      decreases rest
    {
      var key :| key in rest;
      var coerced := CoerceValue(lib, Additional(schema).value, out[key]);
      out := out[key := coerced];
      rest := rest - {key};
    }
  }

  method CoerceItems(lib: Lib, schema: Value, items: seq<Value>) returns (out: seq<Value>)
    ensures out == seq(|items|, i requires 0 <= i < |items| => CoerceItem(lib, schema, i, items[i]))
    decreases schema, 0
  {
    hide Coerce;
    out := [];
    for i := 0 to |items|
      invariant |out| == i && forall k :: 0 <= k < i ==> out[k] == CoerceItem(lib, schema, k, items[k])
    {
      var item := items[i];
      if ItemSchema(schema, i).Some? {
        item := CoerceValue(lib, ItemSchema(schema, i).value, item);
      }
      out := out + [item];
    }
  }

  // ---------------------------------------------------------------------
  // Checking
  // ---------------------------------------------------------------------

  predicate TypeMatches(ty: string, v: Value) {
    if ty == "null" then v.Null?
    else if ty == "boolean" then v.Bool?
    else if ty == "integer" then v.Num? && v.n.Integer?
    else if ty == "number" then v.Num?
    else if ty == "string" then v.Str?
    else if ty == "array" then v.Arr?
    else if ty == "object" then v.Obj?
    else true
  }

  predicate TypeOk(types: seq<string>, v: Value) {
    types == [] || exists i :: 0 <= i < |types| && TypeMatches(types[i], v)
  }

  datatype Segment = Key(k: string) | Index(i: nat)

  datatype Fault =
    | WrongType | NotInEnum | NotConst | Missing(k: string) | NotAllowed | BelowMinimum | AboveMaximum

  datatype Located = Located(path: seq<Segment>, fault: Fault)

  function AsReal(n: Number): real {
    match n
    case Integer(i) => i as real
    case Float(r) => r
  }

  /** `enum` and `const`. */
  function ConstantFaults(schema: Value, v: Value, path: seq<Segment>): set<Located> {
    var e, c := Field(schema, "enum"), Field(schema, "const");
    (if e.Some? && e.value.Arr? && v !in e.value.items then {Located(path, NotInEnum)} else {})
    + (if c.Some? && c.value != v then {Located(path, NotConst)} else {})
  }

  /** `minimum` and `maximum`. */
  function BoundFaults(schema: Value, n: Number, path: seq<Segment>): set<Located> {
    var lo, hi := Field(schema, "minimum"), Field(schema, "maximum");
    (if lo.Some? && lo.value.Num? && AsReal(n) < AsReal(lo.value.n) then {Located(path, BelowMinimum)} else {})
    + (if hi.Some? && hi.value.Num? && AsReal(n) > AsReal(hi.value.n) then {Located(path, AboveMaximum)} else {})
  }

  function RequiredKeys(schema: Value): set<string> {
    var r := Field(schema, "required");
    if r.Some? && r.value.Arr? then
      set i | 0 <= i < |r.value.items| && r.value.items[i].Str? :: r.value.items[i].s
    else {}
  }

  predicate ClosedObject(schema: Value) {
    Field(schema, "additionalProperties") == Some(Bool(false))
  }

  /** `required` and `additionalProperties: false`. */
  function KeyFaults(schema: Value, keys: set<string>, path: seq<Segment>): set<Located> {
    (set k | k in RequiredKeys(schema) - keys :: Located(path, Missing(k)))
    + (if ClosedObject(schema) && Properties(schema).Some? then
         set k | k in keys - Properties(schema).value.Keys :: Located(path + [Key(k)], NotAllowed)
       else {})
  }

  /** Whether the object keywords of the schema apply to an object. */
  predicate ChecksObject(schema: Value) {
    "object" in SchemaTypes(schema) || Field(schema, "properties").Some?
  }

  /** All faults of `v` under `schema`, with their paths. */
  function Faults(schema: Value, v: Value, path: seq<Segment>): set<Located>
    decreases schema, 1
  {
    if !TypeOk(SchemaTypes(schema), v) then {Located(path, WrongType)}
    else ConstantFaults(schema, v, path) + InnerFaults(schema, v, path)
  }

  function InnerFaults(schema: Value, v: Value, path: seq<Segment>): set<Located>
    decreases schema, 0
  {
    match v
    case Obj(fields) =>
      if !ChecksObject(schema) then {}
      else
        KeyFaults(schema, fields.Keys, path)
        + if Properties(schema).Some? then
            FieldFaults(schema, Properties(schema).value, Properties(schema).value.Keys, fields, path)
          else {}
    case Arr(items) => ItemFaults(schema, items, |items|, path)
    case Num(n) => BoundFaults(schema, n, path)
    case _ => {}
  }

  /** Faults of the fields named in `keys`. */
  function FieldFaults(schema: Value, props: map<string, Value>, keys: set<string>, fields: map<string, Value>,
                       path: seq<Segment>): set<Located>
    requires keys <= props.Keys && forall k :: k in props ==> props[k] < schema
    decreases schema, 0, 0
  {
    set k, e | k in keys && k in fields && e in Faults(props[k], fields[k], path + [Key(k)]) :: e
  }

  /** Faults of the first `n` items. */
  function ItemFaults(schema: Value, items: seq<Value>, n: nat, path: seq<Segment>): set<Located>
    requires n <= |items|
    decreases schema, 0, 0
  {
    set i, e | 0 <= i < n && ItemSchema(schema, i).Some?
               && e in Faults(ItemSchema(schema, i).value, items[i], path + [Index(i)]) :: e
  }

  /** The recursive check, appending to an accumulator. */
  method Check(schema: Value, v: Value, path: seq<Segment>, errors0: set<Located>) returns (errors: set<Located>)
    ensures errors == errors0 + Faults(schema, v, path)
    decreases schema
  {
    hide TypeOk, ConstantFaults, KeyFaults, BoundFaults, SchemaTypes;
    errors := errors0;
    if !TypeOk(SchemaTypes(schema), v) {
      return errors + {Located(path, WrongType)};
    }
    errors := CheckInner(schema, v, path, errors + ConstantFaults(schema, v, path));
  }

  /** The keywords that depend on the kind of value. */
  method CheckInner(schema: Value, v: Value, path: seq<Segment>, errors0: set<Located>) returns (errors: set<Located>)
    ensures errors == errors0 + InnerFaults(schema, v, path)
    decreases schema, 1
  {
    hide KeyFaults, BoundFaults, SchemaTypes, FieldFaults, ItemFaults;
    errors := errors0;
    match v {
      case Obj(fields) =>
        if ChecksObject(schema) {
          if Properties(schema).Some? {
            errors := CheckFields(schema, Properties(schema).value, fields, path, errors);
          }
          errors := errors + KeyFaults(schema, fields.Keys, path);
        }
      case Arr(items) =>
        errors := CheckItems(schema, items, path, errors);
      case Num(n) =>
        errors := errors + BoundFaults(schema, n, path);
      case _ =>
    }
  }

  method CheckFields(schema: Value, props: map<string, Value>, fields: map<string, Value>, path: seq<Segment>,
                     errors0: set<Located>)
    returns (errors: set<Located>)
    requires forall k :: k in props ==> props[k] < schema
    ensures errors == errors0 + FieldFaults(schema, props, props.Keys, fields, path)
    decreases schema, 0
  {
    hide Faults;
    errors := errors0;
    var todo := props.Keys;
    while todo != {}
      invariant todo <= props.Keys
      invariant errors == errors0 + FieldFaults(schema, props, props.Keys - todo, fields, path)
      decreases todo
    {
      var key :| key in todo;
      if key in fields {
        errors := Check(props[key], fields[key], path + [Key(key)], errors);
      }
      todo := todo - {key};
    }
    assert props.Keys - todo == props.Keys;
  }

  method CheckItems(schema: Value, items: seq<Value>, path: seq<Segment>, errors0: set<Located>)
    returns (errors: set<Located>)
    ensures errors == errors0 + ItemFaults(schema, items, |items|, path)
    decreases schema, 0
  {
    hide Faults, ItemSchema;
    errors := errors0;
    for n := 0 to |items|
      invariant errors == errors0 + ItemFaults(schema, items, n, path)
    {
      var s := ItemSchema(schema, n);
      if s.Some? {
        errors := Check(s.value, items[n], path + [Index(n)], errors);
      }
    }
  }

  // ---------------------------------------------------------------------
  // Checking is conformance
  // ---------------------------------------------------------------------

  /** Declarative conformance. */
  predicate Conforms(schema: Value, v: Value)
    decreases schema
  {
    && TypeOk(SchemaTypes(schema), v)
    && (Field(schema, "enum").Some? && Field(schema, "enum").value.Arr? ==> v in Field(schema, "enum").value.items)
    && (Field(schema, "const").Some? ==> v == Field(schema, "const").value)
    && (v.Obj? && ChecksObject(schema) ==>
          && RequiredKeys(schema) <= v.fields.Keys
          && (Properties(schema).Some? ==>
                var props := Properties(schema).value;
                && (ClosedObject(schema) ==> v.fields.Keys <= props.Keys)
                && (forall k :: k in props && k in v.fields ==> Conforms(props[k], v.fields[k]))))
    && (v.Arr? ==> forall i :: 0 <= i < |v.items| && ItemSchema(schema, i).Some? ==>
                     Conforms(ItemSchema(schema, i).value, v.items[i]))
    && (v.Num? ==> InBounds(schema, v.n))
  }

  predicate InBounds(schema: Value, n: Number) {
    var lo, hi := Field(schema, "minimum"), Field(schema, "maximum");
    && (lo.Some? && lo.value.Num? ==> AsReal(lo.value.n) <= AsReal(n))
    && (hi.Some? && hi.value.Num? ==> AsReal(n) <= AsReal(hi.value.n))
  }

  lemma KeyFaultsEmpty(schema: Value, keys: set<string>, path: seq<Segment>)
    ensures KeyFaults(schema, keys, path) == {} <==>
            RequiredKeys(schema) <= keys
            && (ClosedObject(schema) && Properties(schema).Some? ==> keys <= Properties(schema).value.Keys)
  {
    hide RequiredKeys, ClosedObject, Properties;
    var faults := KeyFaults(schema, keys, path);
    var missing := RequiredKeys(schema) - keys;
    forall k | k in missing
      ensures Located(path, Missing(k)) in faults
    {
    }
    if ClosedObject(schema) && Properties(schema).Some? {
      var extra := keys - Properties(schema).value.Keys;
      forall k | k in extra
        ensures Located(path + [Key(k)], NotAllowed) in faults
      {
      }
      assert missing == {} && extra == {} ==> faults == {};
    } else {
      assert missing == {} ==> faults == {};
    }
    forall k | k in RequiredKeys(schema) && k !in keys
      ensures k in missing
    {
    }
  }

  /** The check finds no fault exactly in a conforming value. */
  lemma {:induction false} FaultlessIsConforming(schema: Value, v: Value, path: seq<Segment>)
    ensures Faults(schema, v, path) == {} <==> Conforms(schema, v)
    decreases schema
  {
    hide SchemaTypes, TypeOk, RequiredKeys, ClosedObject, ChecksObject;
    match v
    case Obj(fields) => ObjectFaults(schema, fields, path);
    case Arr(items) => ArrayFaults(schema, items, path);
    case _ =>
  }

  lemma {:induction false} ObjectFaults(schema: Value, fields: map<string, Value>, path: seq<Segment>)
    ensures Faults(schema, Obj(fields), path) == {} <==> Conforms(schema, Obj(fields))
    decreases schema, 0
  {
    hide SchemaTypes, TypeOk, KeyFaults, RequiredKeys, ClosedObject, ChecksObject;
    KeyFaultsEmpty(schema, fields.Keys, path);
    if Properties(schema).Some? {
      var props := Properties(schema).value;
      var inner := FieldFaults(schema, props, props.Keys, fields, path);
      forall k | k in props && k in fields
        ensures Faults(props[k], fields[k], path + [Key(k)]) == {} <==> Conforms(props[k], fields[k])
      {
        FaultlessIsConforming(props[k], fields[k], path + [Key(k)]);
      }
      assert inner == {} <==> forall k :: k in props && k in fields ==> Conforms(props[k], fields[k]) by {
        if inner == {} {
          forall k | k in props && k in fields
            ensures Conforms(props[k], fields[k])
          {
            assert forall e :: e in Faults(props[k], fields[k], path + [Key(k)]) ==> e in inner;
          }
        }
      }
    }
  }

  lemma {:induction false} ArrayFaults(schema: Value, items: seq<Value>, path: seq<Segment>)
    ensures Faults(schema, Arr(items), path) == {} <==> Conforms(schema, Arr(items))
    decreases schema, 0
  {
    hide SchemaTypes, TypeOk, ItemSchema;
    var inner := ItemFaults(schema, items, |items|, path);
    forall i | 0 <= i < |items| && ItemSchema(schema, i).Some?
      ensures Faults(ItemSchema(schema, i).value, items[i], path + [Index(i)]) == {}
              <==> Conforms(ItemSchema(schema, i).value, items[i])
    {
      FaultlessIsConforming(ItemSchema(schema, i).value, items[i], path + [Index(i)]);
    }
    assert inner == {} <==> forall i :: 0 <= i < |items| && ItemSchema(schema, i).Some? ==>
                              Conforms(ItemSchema(schema, i).value, items[i]) by {
      if inner == {} {
        forall i | 0 <= i < |items| && ItemSchema(schema, i).Some?
          ensures Conforms(ItemSchema(schema, i).value, items[i])
        {
          assert forall e :: e in Faults(ItemSchema(schema, i).value, items[i], path + [Index(i)]) ==> e in inner;
        }
      }
    }
  }

  // ---------------------------------------------------------------------
  // Both together
  // ---------------------------------------------------------------------

  datatype Outcome = Valid(value: Value) | Invalid(faults: set<Located>)

  function Validate(lib: Lib, schema: Value, arguments: Value): Outcome {
    var v := Coerce(lib, schema, arguments);
    if Faults(schema, v, []) == {} then Valid(v) else Invalid(Faults(schema, v, []))
  }

  /** Accepted exactly when the coerced arguments conform, and then they are
      what is returned; otherwise there is a fault to report. */
  method ValidateToolArguments(lib: Lib, schema: Value, arguments: Value) returns (r: Outcome)
    ensures r.Valid? <==> Conforms(schema, Coerce(lib, schema, arguments))
    ensures r.Valid? ==> r.value == Coerce(lib, schema, arguments)
    ensures r.Invalid? ==> r.faults != {}
    ensures r == Validate(lib, schema, arguments)
  {
    hide Coerce, Conforms, Faults;
    var args := CoerceValue(lib, schema, arguments);
    FaultlessIsConforming(schema, args, []);
    var errors := Check(schema, args, [], {});
    if errors == {} {
      return Valid(args);
    }
    return Invalid(errors);
  }
}

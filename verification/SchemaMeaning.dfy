/** What schemas ask for, in terms of their own JSON: the types they name, the
    conversions those cause, and the schema that governs each place of a
    value. */
module SchemaMeaning {
  import opened JsonText
  import opened Validation
  import JsonGrammar

  // ---------------------------------------------------------------------
  // Types
  // ---------------------------------------------------------------------

  /** The narrowest type name of a value. */
  function TypeName(v: Value): string {
    match v
    case Null => "null"
    case Bool(_) => "boolean"
    case Num(Integer(_)) => "integer"
    case Num(Float(_)) => "number"
    case Str(_) => "string"
    case Arr(_) => "array"
    case Obj(_) => "object"
  }

  const KNOWN := {"null", "boolean", "integer", "number", "string", "array", "object"}

  /** Integers are numbers, and an unknown type name accepts everything. */
  predicate IsOfType(v: Value, ty: string) {
    ty == TypeName(v) || (ty == "number" && v.Num?) || ty !in KNOWN
  }

  lemma TypeMatchesIs(ty: string, v: Value)
    ensures TypeMatches(ty, v) <==> IsOfType(v, ty)
  {
    assert |"null"| == 4 && |"boolean"| == 7 && |"integer"| == 7 && |"number"| == 6 && |"string"| == 6;
    assert |"array"| == 5 && |"object"| == 6 && "boolean"[0] == 'b' && "integer"[0] == 'i';
    assert "number"[0] == 'n' && "string"[0] == 's' && "object"[0] == 'o';
  }

  /** The schema names the type, alone or in a list. */
  predicate Names(schema: Value, ty: string) {
    && schema.Obj? && "type" in schema.fields
    && var t := schema.fields["type"]; t == Str(ty) || (t.Arr? && Str(ty) in t.items)
  }

  lemma {:induction false} StringItemsAre(items: seq<Value>, ty: string)
    ensures ty in StringItems(items) <==> Str(ty) in items
  {
    if items != [] {
      StringItemsAre(items[1..], ty);
      assert items == [items[0]] + items[1..];
    }
  }

  lemma SchemaTypesAre(schema: Value, ty: string)
    ensures ty in SchemaTypes(schema) <==> Names(schema, ty)
  {
    if schema.Obj? && "type" in schema.fields && schema.fields["type"].Arr? {
      StringItemsAre(schema.fields["type"].items, ty);
    }
  }

  // ---------------------------------------------------------------------
  // Conversions
  // ---------------------------------------------------------------------

  /** `t` is `word`, or its capitals, letter by letter. */
  predicate Resembles(t: string, word: string, capitals: string)
    requires |word| == |capitals|
  {
    |t| == |word| && forall i :: 0 <= i < |t| ==> t[i] == word[i] || t[i] == capitals[i]
  }

  /** The text spells the boolean, in any case, with any space around it. */
  ghost predicate Spells(s: string, b: bool) {
    exists t :: IsTrimmed(t, s) && if b then Resembles(t, "true", "TRUE") else Resembles(t, "false", "FALSE")
  }

  /** A finite number keeps its value, and is an integer exactly when it is
      whole and below 2^53 in magnitude. */
  predicate IsNumberOf(f: F64, v: Value) {
    match f
    case NonFinite => v.Null?
    case Finite(x) =>
      && v.Num? && AsReal(v.n) == x
      && (v.n.Integer? <==> x == x.Floor as real && -9007199254740992.0 < x < 9007199254740992.0)
  }

  /** The type asks for `v` to become `r`. */
  ghost predicate Asks(lib: Lib, ty: string, v: Value, r: Value) {
    match v
    case Str(s) =>
      || (ty == "number" && lib.parseF64(s).Some? && IsNumberOf(lib.parseF64(s).value, r))
      || (ty == "integer" && lib.parseI64(s).Some? && r == Num(Integer(lib.parseI64(s).value)))
      || (ty == "boolean" && r.Bool? && Spells(s, r.b))
    case Num(n) => ty == "string" && r == Str(lib.show(n))
    case Bool(b) => ty == "string" && r == Str(if b then "true" else "false")
    case _ => false
  }

  lemma LowerResembles(t: string, word: string, capitals: string)
    requires |word| == |capitals|
    requires forall i :: 0 <= i < |word| ==> 'a' <= word[i] <= 'z' && capitals[i] as int + 32 == word[i] as int
    ensures Lower(t) == word <==> Resembles(t, word, capitals)
  {
    if Lower(t) == word {
      forall i | 0 <= i < |t|
        ensures t[i] == word[i] || t[i] == capitals[i]
      {
        assert Lower(t)[i] == word[i];
      }
    }
  }

  lemma BooleanWords(s: string)
    ensures TrimLower(s) == "true" <==> Spells(s, true)
    ensures TrimLower(s) == "false" <==> Spells(s, false)
  {
    TrimIsTrimmed(s);
    LowerResembles(Trim(s), "true", "TRUE");
    LowerResembles(Trim(s), "false", "FALSE");
    hide IsTrimmed;
    forall t | IsTrimmed(t, s)
      ensures t == Trim(s)
    {
      TrimmedIsUnique(s, t);
    }
  }

  lemma NotBoth(s: string)
    ensures !(Spells(s, true) && Spells(s, false))
  {
    hide TrimLower, Spells;
    BooleanWords(s);
    assert |"true"| == 4 && |"false"| == 5;
  }

  /** One type converts a value to what it asks for. */
  lemma ConvertIs(lib: Lib, ty: string, v: Value, r: Value)
    ensures Convert(lib, ty, v) == Some(r) <==> Asks(lib, ty, v, r)
  {
    hide TrimLower, Spells;
    if v.Str? {
      BooleanWords(v.s);
      NotBoth(v.s);
    }
    assert |"number"| == 6 && |"integer"| == 7 && |"boolean"| == 7 && |"string"| == 6;
    assert "number"[0] == 'n' && "string"[0] == 's' && "integer"[0] == 'i' && "boolean"[0] == 'b';
  }

  ghost predicate Applies(lib: Lib, ty: string, v: Value) {
    exists r :: Asks(lib, ty, v, r)
  }

  lemma AppliesIs(lib: Lib, ty: string, v: Value)
    ensures Convert(lib, ty, v).Some? <==> Applies(lib, ty, v)
  {
    hide Convert, Asks;
    if Convert(lib, ty, v).Some? {
      ConvertIs(lib, ty, v, Convert(lib, ty, v).value);
    }
    if Applies(lib, ty, v) {
      var r :| Asks(lib, ty, v, r);
      ConvertIs(lib, ty, v, r);
    }
  }

  /** The first type of the list that asks for anything decides; without one
      the value stays. */
  lemma {:induction false} PrimitiveIs(lib: Lib, types: seq<string>, v: Value) returns (i: nat)
    ensures i <= |types| && forall j :: 0 <= j < i ==> !Applies(lib, types[j], v)
    ensures if i < |types| then Asks(lib, types[i], v, Primitive(lib, types, v)) else Primitive(lib, types, v) == v
  {
    hide Convert, Asks, Applies;
    if types == [] {
      i := 0;
    } else {
      AppliesIs(lib, types[0], v);
      if Convert(lib, types[0], v).Some? {
        ConvertIs(lib, types[0], v, Convert(lib, types[0], v).value);
        i := 0;
      } else {
        var k := PrimitiveIs(lib, types[1..], v);
        i := k + 1;
        assert forall j :: 1 <= j < i ==> types[j] == types[1..][j - 1];
      }
    }
  }

  /** A conversion gives the type that asked for it, except that a text read as
      an infinite or undefined number becomes null. */
  lemma ConvertedHasType(lib: Lib, ty: string, v: Value, r: Value)
    requires Asks(lib, ty, v, r)
    ensures IsOfType(r, ty) || (r.Null? && ty == "number" && v.Str? && lib.parseF64(v.s) == Some(NonFinite))
  {
    hide Spells;
  }

  /** The type list is read in order, skipping what is no string. */
  lemma {:induction false} TypesInOrder(a: seq<Value>, b: seq<Value>, x: Value)
    ensures StringItems(a + b) == StringItems(a) + StringItems(b)
    ensures StringItems([x]) == if x.Str? then [x.s] else []
  {
    assert [x][1..] == [];
    if a == [] {
      assert a + b == b;
    } else {
      TypesInOrder(a[1..], b, x);
      assert (a + b)[1..] == a[1..] + b;
    }
  }

  // ---------------------------------------------------------------------
  // Every place of a value
  // ---------------------------------------------------------------------

  function Child(v: Value, seg: Segment): Option<Value> {
    match seg
    case Key(k) => if v.Obj? && k in v.fields then Some(v.fields[k]) else None
    case Index(i) => if v.Arr? && i < |v.items| then Some(v.items[i]) else None
  }

  function At(v: Value, path: seq<Segment>): Option<Value>
    decreases |path|
  {
    if path == [] then Some(v)
    else if Child(v, path[0]).None? then None
    else At(Child(v, path[0]).value, path[1..])
  }

  /** The schema coercion applies to a child. There is one only if `properties`
      is an object: the one listed there, or an object under
      `additionalProperties`; for items the one at their position in a list of
      schemas, or the one schema. */
  function Governing(schema: Value, seg: Segment): Option<Value> {
    if !(schema.Obj? && "properties" in schema.fields && schema.fields["properties"].Obj?) then None
    else
      var (props, fields) := (schema.fields["properties"].fields, schema.fields);
      match seg
      case Key(k) =>
        if k in props then Some(props[k])
        else if "additionalProperties" in fields && fields["additionalProperties"].Obj? then
          Some(fields["additionalProperties"])
        else None
      case Index(i) =>
        if "items" !in fields then None
        else if !fields["items"].Arr? then Some(fields["items"])
        else if i < |fields["items"].items| then Some(fields["items"].items[i])
        else None
  }

  function GoverningAt(schema: Value, path: seq<Segment>): Option<Value>
    decreases |path|
  {
    if path == [] then Some(schema)
    else if Governing(schema, path[0]).None? then None
    else GoverningAt(Governing(schema, path[0]).value, path[1..])
  }

  lemma ContainersStay(lib: Lib, types: seq<string>, v: Value)
    ensures v.Obj? || v.Arr? ==> Primitive(lib, types, v) == v
    ensures !v.Obj? && !v.Arr? ==> !Primitive(lib, types, v).Obj? && !Primitive(lib, types, v).Arr?
  {
    hide Primitive, Spells;
    var i := PrimitiveIs(lib, types, v);
  }

  lemma CoercedChild(lib: Lib, schema: Value, v: Value, seg: Segment)
    ensures var (was, now, g) := (Child(v, seg), Child(Coerce(lib, schema, v), seg), Governing(schema, seg));
            now == if was.None? || g.None? then was else Some(Coerce(lib, g.value, was.value))
  {
    ContainersStay(lib, SchemaTypes(schema), v);
    hide Primitive, SchemaTypes;
    if Properties(schema).Some? {
      var props := Properties(schema).value;
      assert Coerce(lib, schema, v) == Children(lib, schema, Primitive(lib, SchemaTypes(schema), v));
      match seg
      case Key(k) =>
        assert v.Obj? && k in v.fields ==>
            Child(Coerce(lib, schema, v), seg) == Some(CoerceField(lib, schema, props, k, v.fields[k]));
      case Index(i) =>
        assert v.Arr? && i < |v.items| ==>
            Child(Coerce(lib, schema, v), seg) == Some(CoerceItem(lib, schema, i, v.items[i]));
    }
  }

  /** Coercion reaches exactly the places a schema governs, and coerces each by
      that schema; nothing appears, disappears or moves. */
  lemma {:induction false} CoercedAt(lib: Lib, schema: Value, v: Value, path: seq<Segment>)
    ensures var (was, now, g) := (At(v, path), At(Coerce(lib, schema, v), path), GoverningAt(schema, path));
            now == if was.None? || g.None? then was else Some(Coerce(lib, g.value, was.value))
    decreases |path|
  {
    hide Coerce;
    if path != [] {
      CoercedChild(lib, schema, v, path[0]);
      var (was, g) := (Child(v, path[0]), Governing(schema, path[0]));
      if was.Some? && g.Some? {
        CoercedAt(lib, g.value, was.value, path[1..]);
      }
    }
  }

  predicate IsScalar(v: Value) {
    !v.Obj? && !v.Arr?
  }

  lemma ScalarCoerced(lib: Lib, schema: Value, v: Value)
    requires IsScalar(v)
    ensures Coerce(lib, schema, v) == Primitive(lib, SchemaTypes(schema), v)
  {
    ContainersStay(lib, SchemaTypes(schema), v);
    hide Primitive, SchemaTypes;
  }

  /** What becomes of every scalar of the value, at any depth: the first type
      its schema lists that asks for anything decides. */
  lemma ScalarIsConverted(lib: Lib, schema: Value, v: Value, path: seq<Segment>) returns (i: nat)
    requires At(v, path).Some? && IsScalar(At(v, path).value) && GoverningAt(schema, path).Some?
    ensures var (was, types) := (At(v, path).value, SchemaTypes(GoverningAt(schema, path).value));
            && At(Coerce(lib, schema, v), path).Some? && i <= |types|
            && (forall j :: 0 <= j < i ==> !Applies(lib, types[j], was))
            && var now := At(Coerce(lib, schema, v), path).value;
               if i < |types| then Asks(lib, types[i], was, now) else now == was
  {
    hide Asks, Applies, Primitive, SchemaTypes, At, GoverningAt;
    CoercedAt(lib, schema, v, path);
    var (was, g) := (At(v, path).value, GoverningAt(schema, path).value);
    ScalarCoerced(lib, g, was);
    hide Coerce;
    i := PrimitiveIs(lib, SchemaTypes(g), was);
  }

  // ---------------------------------------------------------------------
  // Reading back
  // ---------------------------------------------------------------------

  /** A boolean asked for as text is its JSON text, and reads back. */
  lemma BooleansReadBack(lib: Lib, asText: Value, asTruth: Value, b: bool)
    requires SchemaTypes(asText) == ["string"] && SchemaTypes(asTruth) == ["boolean"]
    ensures var text := Coerce(lib, asText, Bool(b));
            && text.Str? && JsonGrammar.Parse(text.s) == Some(JsonGrammar.JBool(b))
            && Coerce(lib, asTruth, text) == Bool(b)
  {
    hide SchemaTypes, Coerce, TrimLower, JsonGrammar.Parse;
    var word := if b then "true" else "false";
    WordReads(b);
    LowerWord(b);
    ScalarCoerced(lib, asText, Bool(b));
    ScalarCoerced(lib, asTruth, Str(word));
    assert |"true"| == 4 && |"false"| == 5;
  }

  lemma LowerWord(b: bool)
    ensures TrimLower(if b then "true" else "false") == if b then "true" else "false"
  {
    var word := if b then "true" else "false";
    assert word[0] == if b then 't' else 'f';
    assert word[|word| - 1] == 'e';
  }

  lemma WordReads(b: bool)
    ensures JsonGrammar.Parse(if b then "true" else "false") == Some(JsonGrammar.JBool(b))
  {
    hide JsonGrammar.ReadString, JsonGrammar.NumberLength;
    var word := if b then "true" else "false";
    assert "true"[4..] == [] && "false"[5..] == [];
    assert word[0] == if b then 't' else 'f';
  }

  /** The form number parsing gives a value. */
  predicate IsCanonical(n: Number) {
    IsNumberOf(Finite(AsReal(n)), Num(n))
  }

  /** A number asked for as text reads back as itself if its text parses to its
      value. */
  lemma NumbersReadBack(lib: Lib, asText: Value, asNumber: Value, n: Number)
    requires SchemaTypes(asText) == ["string"] && SchemaTypes(asNumber) == ["number"]
    requires lib.parseF64(lib.show(n)) == Some(Finite(AsReal(n)))
    ensures Coerce(lib, asNumber, Coerce(lib, asText, Num(n))) == Num(n) <==> IsCanonical(n)
  {
    hide SchemaTypes, Coerce;
    ScalarCoerced(lib, asText, Num(n));
    ScalarCoerced(lib, asNumber, Str(lib.show(n)));
    assert ["string"][1..] == [] && ["number"][1..] == [];
    ConvertIs(lib, "number", Str(lib.show(n)), Num(n));
  }

  // ---------------------------------------------------------------------
  // Conformance
  // ---------------------------------------------------------------------

  predicate Says(schema: Value, key: string) {
    schema.Obj? && key in schema.fields
  }

  ghost predicate TypeFits(schema: Value, v: Value) {
    (exists ty :: Names(schema, ty) && IsOfType(v, ty)) || (forall ty :: !Names(schema, ty))
  }

  predicate ConstantsFit(schema: Value, v: Value) {
    && (Says(schema, "enum") && schema.fields["enum"].Arr? ==> v in schema.fields["enum"].items)
    && (Says(schema, "const") ==> v == schema.fields["const"])
  }

  predicate BoundsFit(schema: Value, n: Number) {
    && (Says(schema, "minimum") && schema.fields["minimum"].Num? ==>
          AsReal(schema.fields["minimum"].n) <= AsReal(n))
    && (Says(schema, "maximum") && schema.fields["maximum"].Num? ==>
          AsReal(n) <= AsReal(schema.fields["maximum"].n))
  }

  ghost predicate FieldsFit(schema: Value, fields: map<string, Value>) {
    && (Says(schema, "required") && schema.fields["required"].Arr? ==>
          forall k :: Str(k) in schema.fields["required"].items ==> k in fields)
    && (Says(schema, "properties") && schema.fields["properties"].Obj? ==>
          var props := schema.fields["properties"].fields;
          && (Says(schema, "additionalProperties") && schema.fields["additionalProperties"] == Bool(false) ==>
                forall k :: k in fields ==> k in props)
          && (forall k :: k in props && k in fields ==> Conforms(props[k], fields[k])))
  }

  predicate ItemsFit(schema: Value, items: seq<Value>) {
    Says(schema, "items") ==>
      var given := schema.fields["items"];
      if given.Arr? then
        forall i :: 0 <= i < |items| && i < |given.items| ==> Conforms(given.items[i], items[i])
      else forall i :: 0 <= i < |items| ==> Conforms(given, items[i])
  }

  /** Conformance, keyword by keyword. */
  lemma ConformsMeans(schema: Value, v: Value)
    ensures Conforms(schema, v) <==>
              && TypeFits(schema, v) && ConstantsFit(schema, v)
              && (v.Obj? && (Names(schema, "object") || Says(schema, "properties")) ==> FieldsFit(schema, v.fields))
              && (v.Arr? ==> ItemsFit(schema, v.items))
              && (v.Num? ==> BoundsFit(schema, v.n))
  {
    TypeFitsIs(schema, v);
    SchemaTypesAre(schema, "object");
    if v.Obj? {
      RequiredAre(schema, v.fields.Keys);
    }
    hide TypeOk, TypeFits, RequiredKeys, SchemaTypes, Names, AsReal, IsOfType;
    if v.Arr? {
      ItemsFitIs(schema, v.items);
    }
    hide ItemsFit, ItemSchema;
  }

  lemma ItemsFitIs(schema: Value, items: seq<Value>)
    ensures ItemsFit(schema, items) <==>
            forall i :: 0 <= i < |items| && ItemSchema(schema, i).Some? ==>
              Conforms(ItemSchema(schema, i).value, items[i])
  {
    hide Conforms;
  }

  lemma RequiredAre(schema: Value, keys: set<string>)
    ensures RequiredKeys(schema) <= keys <==>
              (Says(schema, "required") && schema.fields["required"].Arr? ==>
                 forall k :: Str(k) in schema.fields["required"].items ==> k in keys)
  {
    if Says(schema, "required") && schema.fields["required"].Arr? {
      var items := schema.fields["required"].items;
      assert forall k :: k in RequiredKeys(schema) <==> Str(k) in items;
    }
  }

  lemma TypeFitsIs(schema: Value, v: Value)
    ensures TypeOk(SchemaTypes(schema), v) <==> TypeFits(schema, v)
  {
    hide TypeMatches, IsOfType, Names, SchemaTypes;
    var types := SchemaTypes(schema);
    forall ty
      ensures ty in types <==> Names(schema, ty)
      ensures TypeMatches(ty, v) <==> IsOfType(v, ty)
    {
      SchemaTypesAre(schema, ty);
      TypeMatchesIs(ty, v);
    }
    if types != [] {
      assert types[0] in types;
    }
  }
}

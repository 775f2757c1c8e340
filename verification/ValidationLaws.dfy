/** Laws of coercion and checking over every schema and every value. */
module ValidationLaws {
  import opened JsonText
  import opened Validation

  // ---------------------------------------------------------------------
  // One node
  // ---------------------------------------------------------------------

  predicate AsksFromString(types: seq<string>) {
    "number" in types || "integer" in types || "boolean" in types
  }

  /** A type name the checker does not know accepts every value. */
  predicate IsOpenType(ty: string) {
    ty !in {"null", "boolean", "integer", "number", "string", "array", "object"}
  }

  predicate HasOpenType(types: seq<string>) {
    exists i :: 0 <= i < |types| && IsOpenType(types[i])
  }

  /** Strings are not both a target and a source of conversion. */
  predicate Unmixed(types: seq<string>) {
    !("string" in types && AsksFromString(types))
  }

  /** Besides, no open type stands next to a converting one. */
  predicate Plain(types: seq<string>) {
    Unmixed(types) && !(HasOpenType(types) && ("string" in types || AsksFromString(types)))
  }

  lemma SingleTypeIsPlain(types: seq<string>)
    requires |types| <= 1
    ensures Unmixed(types) && Plain(types)
  {
  }

  /** Which values a type list converts. */
  lemma {:induction false} PrimitiveKind(lib: Lib, types: seq<string>, v: Value)
    ensures Primitive(lib, types, v) != v ==>
              (v.Str? && AsksFromString(types)) || ((v.Num? || v.Bool?) && "string" in types)
    ensures v.Str? && Primitive(lib, types, v) != v ==> !Primitive(lib, types, v).Str?
    ensures (v.Num? || v.Bool?) && "string" in types ==> Primitive(lib, types, v).Str?
    ensures v.Obj? || v.Arr? || v.Null? ==> Primitive(lib, types, v) == v
    ensures !v.Obj? && !v.Arr? ==> !Primitive(lib, types, v).Obj? && !Primitive(lib, types, v).Arr?
  {
    hide NumberValue, TrimLower;
    if types != [] {
      NumberValueKind(lib, v);
      PrimitiveKind(lib, types[1..], v);
    }
  }

  lemma NumberValueKind(lib: Lib, v: Value)
    ensures v.Str? && lib.parseF64(v.s).Some? ==>
              NumberValue(lib.parseF64(v.s).value).Num? || NumberValue(lib.parseF64(v.s).value).Null?
  {
  }

  lemma {:induction false} SomeConversionApplies(lib: Lib, types: seq<string>, v: Value, i: nat)
    requires i < |types| && Convert(lib, types[i], v).Some?
    ensures Primitive(lib, types, v) != v
  {
    hide NumberValue, TrimLower;
    NumberValueKind(lib, v);
    if Convert(lib, types[0], v).None? {
      SomeConversionApplies(lib, types[1..], v, i - 1);
    }
  }

  /** One whole number prints to a text that parses back as a number. */
  predicate Printable(lib: Lib) {
    var text := lib.show(Integer(1));
    lib.parseF64(text).Some? && lib.parseI64(text).Some?
  }

  lemma TrueIsTrue()
    ensures TrimLower("true") == "true"
  {
    assert "true"[0] == 't' && "true"[3] == 'e';
  }

  lemma NumberPrints(lib: Lib, types: seq<string>)
    requires "string" in types
    ensures Primitive(lib, types, Num(Integer(1))) == Str(lib.show(Integer(1)))
    ensures Primitive(lib, types, Bool(true)) == Str("true")
  {
    if types[0] != "string" {
      NumberPrints(lib, types[1..]);
    }
  }

  /** The two strings that show a conversion: one for the number types, one
      for booleans. */
  lemma StringConverts(lib: Lib, types: seq<string>)
    requires Printable(lib)
    ensures "number" in types || "integer" in types ==>
              Primitive(lib, types, Str(lib.show(Integer(1)))) != Str(lib.show(Integer(1)))
    ensures "boolean" in types ==> Primitive(lib, types, Str("true")) != Str("true")
  {
    if "number" in types || "integer" in types {
      var i :| 0 <= i < |types| && (types[i] == "number" || types[i] == "integer");
      SomeConversionApplies(lib, types, Str(lib.show(Integer(1))), i);
    }
    if "boolean" in types {
      TrueIsTrue();
      var i :| 0 <= i < |types| && types[i] == "boolean";
      SomeConversionApplies(lib, types, Str("true"), i);
    }
  }

  /** Converting twice is converting once, for every value, exactly when the
      list does not mix strings with types that strings convert to. */
  lemma IdempotentExactlyUnmixed(lib: Lib, types: seq<string>)
    requires Printable(lib)
    ensures (forall v :: Primitive(lib, types, Primitive(lib, types, v)) == Primitive(lib, types, v)) <==>
              Unmixed(types)
  {
    hide Primitive;
    if Unmixed(types) {
      forall v
        ensures Primitive(lib, types, Primitive(lib, types, v)) == Primitive(lib, types, v)
      {
        PrimitiveTwice(lib, types, v);
      }
    } else {
      NumberPrints(lib, types);
      StringConverts(lib, types);
      if "number" in types || "integer" in types {
        var v := Num(Integer(1));
        assert Primitive(lib, types, Primitive(lib, types, v)) != Primitive(lib, types, v);
      } else {
        var v := Bool(true);
        assert Primitive(lib, types, Primitive(lib, types, v)) != Primitive(lib, types, v);
      }
    }
  }

  lemma PrimitiveTwice(lib: Lib, types: seq<string>, v: Value)
    requires Unmixed(types)
    ensures Primitive(lib, types, Primitive(lib, types, v)) == Primitive(lib, types, v)
  {
    hide Primitive;
    PrimitiveKind(lib, types, v);
    PrimitiveKind(lib, types, Primitive(lib, types, v));
  }

  lemma WellTypedKind(types: seq<string>, v: Value)
    requires TypeOk(types, v) && types != [] && !HasOpenType(types)
    ensures v.Str? ==> "string" in types
    ensures v.Num? || v.Bool? ==> AsksFromString(types)
  {
    var i :| 0 <= i < |types| && TypeMatches(types[i], v);
    assert types[i] in types && !IsOpenType(types[i]);
  }

  lemma WellTypedUnchanged(lib: Lib, types: seq<string>, v: Value)
    requires Plain(types) && TypeOk(types, v)
    ensures Primitive(lib, types, v) == v
  {
    PrimitiveKind(lib, types, v);
    if types != [] && !HasOpenType(types) {
      WellTypedKind(types, v);
    }
  }

  /** A value of an accepted type is left alone, for every such value, exactly
      when the list is plain. */
  lemma UnchangedExactlyPlain(lib: Lib, types: seq<string>)
    requires Printable(lib)
    ensures (forall v :: TypeOk(types, v) ==> Primitive(lib, types, v) == v) <==> Plain(types)
  {
    hide Primitive;
    if Plain(types) {
      forall v | TypeOk(types, v)
        ensures Primitive(lib, types, v) == v
      {
        WellTypedUnchanged(lib, types, v);
      }
    } else {
      StringConverts(lib, types);
      if "string" in types && HasOpenType(types) {
        NumberPrints(lib, types);
        OpenAccepts(types, Num(Integer(1)));
        assert Primitive(lib, types, Num(Integer(1))) != Num(Integer(1));
      } else {
        var v := if "number" in types || "integer" in types then Str(lib.show(Integer(1))) else Str("true");
        StringAccepted(types, v);
        assert Primitive(lib, types, v) != v;
      }
    }
  }

  lemma OpenAccepts(types: seq<string>, v: Value)
    requires HasOpenType(types)
    ensures TypeOk(types, v)
  {
    var i :| 0 <= i < |types| && IsOpenType(types[i]);
    assert TypeMatches(types[i], v);
  }

  lemma StringAccepted(types: seq<string>, v: Value)
    requires v.Str? && ("string" in types || HasOpenType(types))
    ensures TypeOk(types, v)
  {
    if "string" in types {
      var i :| 0 <= i < |types| && types[i] == "string";
      assert TypeMatches(types[i], v);
    } else {
      OpenAccepts(types, v);
    }
  }

  // ---------------------------------------------------------------------
  // Whole schemas
  // ---------------------------------------------------------------------

  /** The condition holds at the schema and at every schema below it that
      coercion can reach. */
  ghost predicate EveryNode(schema: Value, plain: bool)
    decreases schema
  {
    && (if plain then Plain(SchemaTypes(schema)) else Unmixed(SchemaTypes(schema)))
    && (Properties(schema).Some? ==>
          && (forall k :: k in Properties(schema).value ==> EveryNode(Properties(schema).value[k], plain))
          && (Additional(schema).Some? ==> !plain && EveryNode(Additional(schema).value, plain))
          && (forall i: nat :: ItemSchema(schema, i).Some? ==> EveryNode(ItemSchema(schema, i).value, plain)))
  }

  /** Every node asks for at most one type; when `closed`, none has an
      object-valued `additionalProperties`. */
  ghost predicate SingleTyped(schema: Value, closed: bool)
    decreases schema
  {
    && |SchemaTypes(schema)| <= 1
    && (Properties(schema).Some? ==>
          && (forall k :: k in Properties(schema).value ==> SingleTyped(Properties(schema).value[k], closed))
          && (Additional(schema).Some? ==> !closed && SingleTyped(Additional(schema).value, closed))
          && (forall i: nat :: ItemSchema(schema, i).Some? ==> SingleTyped(ItemSchema(schema, i).value, closed)))
  }

  /** Single-typed schemas meet the condition for idempotence, and closed ones
      the condition for leaving conforming values alone. */
  lemma {:induction false} SingleTypedIsEnough(schema: Value, closed: bool)
    requires SingleTyped(schema, closed)
    ensures EveryNode(schema, closed)
    decreases schema
  {
    hide SchemaTypes;
    SingleTypeIsPlain(SchemaTypes(schema));
    if Properties(schema).Some? {
      forall k | k in Properties(schema).value
        ensures EveryNode(Properties(schema).value[k], closed)
      {
        SingleTypedIsEnough(Properties(schema).value[k], closed);
      }
      if Additional(schema).Some? {
        SingleTypedIsEnough(Additional(schema).value, closed);
      }
      forall i: nat | ItemSchema(schema, i).Some?
        ensures EveryNode(ItemSchema(schema, i).value, closed)
      {
        SingleTypedIsEnough(ItemSchema(schema, i).value, closed);
      }
    }
  }

  /** Children of a coerced value, field by field and item by item. */
  lemma ChildrenOf(lib: Lib, schema: Value, v: Value)
    requires Properties(schema).Some?
    ensures v.Obj? ==> Children(lib, schema, v).Obj? && Children(lib, schema, v).fields.Keys == v.fields.Keys
    ensures v.Obj? ==> forall k :: k in v.fields ==>
              Children(lib, schema, v).fields[k] == CoerceField(lib, schema, Properties(schema).value, k, v.fields[k])
    ensures v.Arr? ==> Children(lib, schema, v).Arr? && |Children(lib, schema, v).items| == |v.items|
    ensures v.Arr? ==> forall i :: 0 <= i < |v.items| ==>
              Children(lib, schema, v).items[i] == CoerceItem(lib, schema, i, v.items[i])
    ensures !v.Obj? && !v.Arr? ==> Children(lib, schema, v) == v
  {
  }

  /** Coercing an already coerced value changes nothing, at every unmixed
      schema and every value. */
  lemma {:induction false} CoerceIsIdempotent(lib: Lib, schema: Value, v: Value)
    requires EveryNode(schema, false)
    ensures Coerce(lib, schema, Coerce(lib, schema, v)) == Coerce(lib, schema, v)
    decreases schema
  {
    hide Primitive, SchemaTypes, Children, CoerceField, CoerceItem, Unmixed;
    var types := SchemaTypes(schema);
    var w := Primitive(lib, types, v);
    var c := Children(lib, schema, w);
    PrimitiveTwice(lib, types, v);
    PrimitiveKind(lib, types, c);
    if Properties(schema).Some? {
      ChildrenOf(lib, schema, w);
      ChildrenOf(lib, schema, c);
      var d := Children(lib, schema, c);
      if w.Obj? {
        forall k | k in w.fields
          ensures d.fields[k] == c.fields[k]
        {
          FieldIdempotent(lib, schema, k, w.fields[k]);
        }
        assert d.fields == c.fields;
      } else if w.Arr? {
        forall i | 0 <= i < |w.items|
          ensures d.items[i] == c.items[i]
        {
          ItemIdempotent(lib, schema, i, w.items[i]);
        }
        assert d.items == c.items;
      }
    } else {
      NoChildren(lib, schema, w);
    }
  }

  lemma NoChildren(lib: Lib, schema: Value, v: Value)
    requires Properties(schema).None?
    ensures Children(lib, schema, v) == v
  {
  }

  lemma {:induction false} FieldIdempotent(lib: Lib, schema: Value, k: string, v: Value)
    requires EveryNode(schema, false) && Properties(schema).Some?
    ensures var props := Properties(schema).value;
            var once := CoerceField(lib, schema, props, k, v);
            CoerceField(lib, schema, props, k, once) == once
    decreases schema, 0
  {
    hide Coerce;
    if k in Properties(schema).value {
      CoerceIsIdempotent(lib, Properties(schema).value[k], v);
    } else if Additional(schema).Some? {
      CoerceIsIdempotent(lib, Additional(schema).value, v);
    }
  }

  lemma {:induction false} ItemIdempotent(lib: Lib, schema: Value, i: nat, v: Value)
    requires EveryNode(schema, false) && Properties(schema).Some?
    ensures CoerceItem(lib, schema, i, CoerceItem(lib, schema, i, v)) == CoerceItem(lib, schema, i, v)
    decreases schema, 0
  {
    hide Coerce;
    if ItemSchema(schema, i).Some? {
      CoerceIsIdempotent(lib, ItemSchema(schema, i).value, v);
    }
  }

  // ---------------------------------------------------------------------
  // A mixed node, wherever it is, meets a value that oscillates
  // ---------------------------------------------------------------------

  lemma {:induction false} LongerThanAll(keys: set<string>) returns (n: nat)
    ensures forall k :: k in keys ==> |k| < n
  {
    if keys == {} {
      n := 0;
    } else {
      var x :| x in keys;
      var m := LongerThanAll(keys - {x});
      n := if m > |x| then m else |x| + 1;
    }
  }

  lemma FreshKey(keys: set<string>) returns (k: string)
    ensures k !in keys
  {
    var n := LongerThanAll(keys);
    k := seq(n, i requires 0 <= i < n => 'k');
  }

  predicate Oscillates(lib: Lib, schema: Value, v: Value) {
    Coerce(lib, schema, Coerce(lib, schema, v)) != Coerce(lib, schema, v)
  }

  /** Scalars have no children to coerce. */
  lemma CoerceScalar(lib: Lib, schema: Value, v: Value)
    requires !v.Obj? && !v.Arr?
    ensures Coerce(lib, schema, v) == Primitive(lib, SchemaTypes(schema), v)
  {
    hide Primitive, Children, SchemaTypes;
    var w := Primitive(lib, SchemaTypes(schema), v);
    PrimitiveKind(lib, SchemaTypes(schema), v);
    if Properties(schema).Some? {
      ChildrenOf(lib, schema, w);
    } else {
      NoChildren(lib, schema, w);
    }
  }

  lemma CoerceContainer(lib: Lib, schema: Value, v: Value)
    requires v.Obj? || v.Arr?
    ensures Coerce(lib, schema, v) == Children(lib, schema, v)
  {
    hide Primitive, Children, SchemaTypes;
    PrimitiveKind(lib, SchemaTypes(schema), v);
  }

  lemma MixedNode(lib: Lib, schema: Value) returns (v: Value)
    requires Printable(lib) && !Unmixed(SchemaTypes(schema))
    ensures Oscillates(lib, schema, v)
  {
    hide Primitive, Coerce, SchemaTypes;
    var types := SchemaTypes(schema);
    NumberPrints(lib, types);
    StringConverts(lib, types);
    v := if "number" in types || "integer" in types then Num(Integer(1)) else Bool(true);
    CoerceScalar(lib, schema, v);
    CoerceScalar(lib, schema, Primitive(lib, types, v));
  }

  lemma MixedField(lib: Lib, schema: Value, k: string, inner: Value, w: Value) returns (v: Value)
    requires Properties(schema).Some? && Oscillates(lib, inner, w)
    requires if k in Properties(schema).value then inner == Properties(schema).value[k]
             else Additional(schema) == Some(inner)
    ensures Oscillates(lib, schema, v)
  {
    hide Coerce, Children, SchemaTypes;
    v := Obj(map[k := w]);
    CoerceContainer(lib, schema, v);
    ChildrenOf(lib, schema, v);
    var c := Coerce(lib, schema, v);
    CoerceContainer(lib, schema, c);
    ChildrenOf(lib, schema, c);
    assert c.fields[k] == Coerce(lib, inner, w);
    assert Coerce(lib, schema, c).fields[k] == Coerce(lib, inner, Coerce(lib, inner, w));
  }

  lemma MixedItem(lib: Lib, schema: Value, i: nat, inner: Value, w: Value) returns (v: Value)
    requires Properties(schema).Some? && ItemSchema(schema, i) == Some(inner) && Oscillates(lib, inner, w)
    ensures Oscillates(lib, schema, v)
  {
    hide Coerce, Children, SchemaTypes;
    v := Arr(seq(i + 1, j requires 0 <= j < i + 1 => if j == i then w else Null));
    CoerceContainer(lib, schema, v);
    ChildrenOf(lib, schema, v);
    var c := Coerce(lib, schema, v);
    CoerceContainer(lib, schema, c);
    ChildrenOf(lib, schema, c);
    assert c.items[i] == Coerce(lib, inner, w);
    assert Coerce(lib, schema, c).items[i] == Coerce(lib, inner, Coerce(lib, inner, w));
  }

  lemma {:induction false} MixedOscillates(lib: Lib, schema: Value) returns (v: Value)
    requires Printable(lib) && !EveryNode(schema, false)
    ensures Oscillates(lib, schema, v)
    decreases schema
  {
    hide Oscillates, SchemaTypes, Unmixed;
    if !Unmixed(SchemaTypes(schema)) {
      v := MixedNode(lib, schema);
    } else {
      var props := Properties(schema).value;
      if k :| k in props && !EveryNode(props[k], false) {
        var w := MixedOscillates(lib, props[k]);
        v := MixedField(lib, schema, k, props[k], w);
      } else if Additional(schema).Some? && !EveryNode(Additional(schema).value, false) {
        var inner := Additional(schema).value;
        var k := FreshKey(props.Keys);
        var w := MixedOscillates(lib, inner);
        v := MixedField(lib, schema, k, inner, w);
      } else {
        var i: nat :| ItemSchema(schema, i).Some? && !EveryNode(ItemSchema(schema, i).value, false);
        var inner := ItemSchema(schema, i).value;
        var w := MixedOscillates(lib, inner);
        v := MixedItem(lib, schema, i, inner, w);
      }
    }
  }

  /** Coercion is idempotent, over every JSON value, exactly on the schemas
      whose every reachable node is unmixed. */
  lemma CoerceIdempotentExactly(lib: Lib, schema: Value)
    requires Printable(lib)
    ensures (forall v :: Coerce(lib, schema, Coerce(lib, schema, v)) == Coerce(lib, schema, v)) <==>
              EveryNode(schema, false)
  {
    hide Coerce, EveryNode;
    if EveryNode(schema, false) {
      forall v
        ensures Coerce(lib, schema, Coerce(lib, schema, v)) == Coerce(lib, schema, v)
      {
        CoerceIsIdempotent(lib, schema, v);
      }
    } else {
      var v := MixedOscillates(lib, schema);
      assert Coerce(lib, schema, Coerce(lib, schema, v)) != Coerce(lib, schema, v);
    }
  }

  /** Same object keys and array lengths, all the way down. */
  predicate SameShape(a: Value, b: Value)
    decreases a
  {
    match a
    case Obj(fields) =>
      b.Obj? && b.fields.Keys == fields.Keys && forall k :: k in fields ==> SameShape(fields[k], b.fields[k])
    case Arr(items) =>
      b.Arr? && |b.items| == |items| && forall i :: 0 <= i < |items| ==> SameShape(items[i], b.items[i])
    case _ => !b.Obj? && !b.Arr?
  }

  lemma {:induction false} SameShapeAsItself(a: Value)
    ensures SameShape(a, a)
    decreases a
  {
    match a
    case Obj(fields) =>
      forall k | k in fields
        ensures SameShape(fields[k], fields[k])
      {
        SameShapeAsItself(fields[k]);
      }
    case Arr(items) =>
      forall i | 0 <= i < |items|
        ensures SameShape(items[i], items[i])
      {
        SameShapeAsItself(items[i]);
      }
    case _ =>
  }

  /** Coercion adds and drops no key and no item, whatever the schema. */
  lemma {:induction false} CoerceKeepsShape(lib: Lib, schema: Value, v: Value)
    ensures SameShape(v, Coerce(lib, schema, v))
    decreases schema
  {
    hide Primitive, SchemaTypes, Children, CoerceField, CoerceItem;
    var w := Primitive(lib, SchemaTypes(schema), v);
    PrimitiveKind(lib, SchemaTypes(schema), v);
    if v.Obj? || v.Arr? {
      assert w == v;
      if Properties(schema).Some? {
        ChildrenOf(lib, schema, v);
        if v.Obj? {
          forall k | k in v.fields
            ensures SameShape(v.fields[k], Coerce(lib, schema, v).fields[k])
          {
            FieldKeepsShape(lib, schema, k, v.fields[k]);
          }
        } else {
          forall i | 0 <= i < |v.items|
            ensures SameShape(v.items[i], Coerce(lib, schema, v).items[i])
          {
            ItemKeepsShape(lib, schema, i, v.items[i]);
          }
        }
      } else {
        NoChildren(lib, schema, v);
        SameShapeAsItself(v);
      }
    } else if Properties(schema).Some? {
      ChildrenOf(lib, schema, w);
    } else {
      NoChildren(lib, schema, w);
    }
  }

  lemma {:induction false} FieldKeepsShape(lib: Lib, schema: Value, k: string, v: Value)
    requires Properties(schema).Some?
    ensures SameShape(v, CoerceField(lib, schema, Properties(schema).value, k, v))
    decreases schema, 0
  {
    hide Coerce, SameShape;
    if k in Properties(schema).value {
      CoerceKeepsShape(lib, Properties(schema).value[k], v);
    } else if Additional(schema).Some? {
      CoerceKeepsShape(lib, Additional(schema).value, v);
    } else {
      SameShapeAsItself(v);
    }
  }

  lemma {:induction false} ItemKeepsShape(lib: Lib, schema: Value, i: nat, v: Value)
    ensures SameShape(v, CoerceItem(lib, schema, i, v))
    decreases schema, 0
  {
    hide Coerce, SameShape;
    if ItemSchema(schema, i).Some? {
      CoerceKeepsShape(lib, ItemSchema(schema, i).value, v);
    } else {
      SameShapeAsItself(v);
    }
  }

  /** Arguments returned by validation validate again, to themselves. */
  lemma ValidatedArgumentsAreStable(lib: Lib, schema: Value, arguments: Value)
    requires EveryNode(schema, false) && Validate(lib, schema, arguments).Valid?
    ensures Validate(lib, schema, Validate(lib, schema, arguments).value) == Validate(lib, schema, arguments)
    ensures Conforms(schema, Validate(lib, schema, arguments).value)
  {
    hide Coerce, Faults, Conforms;
    CoerceIsIdempotent(lib, schema, arguments);
    FaultlessIsConforming(schema, Coerce(lib, schema, arguments), []);
  }

  // ---------------------------------------------------------------------
  // Leaving values alone
  // ---------------------------------------------------------------------

  predicate Converts(types: seq<string>) {
    "string" in types || AsksFromString(types)
  }

  /** Nothing coercion can reach from here converts anything. */
  ghost predicate Inert(schema: Value)
    decreases schema
  {
    && !Converts(SchemaTypes(schema))
    && (Properties(schema).Some? ==>
          && (forall k :: k in Properties(schema).value ==> Inert(Properties(schema).value[k]))
          && (Additional(schema).Some? ==> Inert(Additional(schema).value))
          && (forall i: nat :: ItemSchema(schema, i).Some? ==> Inert(ItemSchema(schema, i).value)))
  }

  /** Every list is plain, and schemas of additional properties, which the
      check does not look at, are inert. */
  ghost predicate Keeps(schema: Value)
    decreases schema
  {
    && Plain(SchemaTypes(schema))
    && (Properties(schema).Some? ==>
          && (forall k :: k in Properties(schema).value ==> Keeps(Properties(schema).value[k]))
          && (Additional(schema).Some? ==> Inert(Additional(schema).value))
          && (forall i: nat :: ItemSchema(schema, i).Some? ==> Keeps(ItemSchema(schema, i).value)))
  }

  lemma {:induction false} PlainKeeps(schema: Value)
    requires EveryNode(schema, true)
    ensures Keeps(schema)
    decreases schema
  {
    hide SchemaTypes, Plain;
    if Properties(schema).Some? {
      forall k | k in Properties(schema).value
        ensures Keeps(Properties(schema).value[k])
      {
        PlainKeeps(Properties(schema).value[k]);
      }
      forall i: nat | ItemSchema(schema, i).Some?
        ensures Keeps(ItemSchema(schema, i).value)
      {
        PlainKeeps(ItemSchema(schema, i).value);
      }
    }
  }

  /** Children that are left alone leave their parent alone. */
  lemma SameChildren(lib: Lib, schema: Value, v: Value)
    requires Primitive(lib, SchemaTypes(schema), v) == v
    requires v.Obj? && Properties(schema).Some? ==>
               forall k :: k in v.fields ==>
                 CoerceField(lib, schema, Properties(schema).value, k, v.fields[k]) == v.fields[k]
    requires v.Arr? && Properties(schema).Some? ==>
               forall i :: 0 <= i < |v.items| ==> CoerceItem(lib, schema, i, v.items[i]) == v.items[i]
    ensures Coerce(lib, schema, v) == v
  {
    hide Primitive, SchemaTypes, Children, CoerceField, CoerceItem;
    if Properties(schema).Some? {
      ChildrenOf(lib, schema, v);
      var d := Children(lib, schema, v);
      if v.Obj? {
        assert d.fields == v.fields;
      } else if v.Arr? {
        assert d.items == v.items;
      }
    } else {
      NoChildren(lib, schema, v);
    }
  }

  lemma {:induction false} InertIsIdentity(lib: Lib, schema: Value, v: Value)
    requires Inert(schema)
    ensures Coerce(lib, schema, v) == v
    decreases schema
  {
    hide Primitive, SchemaTypes, Coerce;
    PrimitiveKind(lib, SchemaTypes(schema), v);
    if Properties(schema).Some? {
      if v.Obj? {
        forall k | k in v.fields
          ensures CoerceField(lib, schema, Properties(schema).value, k, v.fields[k]) == v.fields[k]
        {
          if k in Properties(schema).value {
            InertIsIdentity(lib, Properties(schema).value[k], v.fields[k]);
          } else if Additional(schema).Some? {
            InertIsIdentity(lib, Additional(schema).value, v.fields[k]);
          }
        }
      } else if v.Arr? {
        forall i | 0 <= i < |v.items|
          ensures CoerceItem(lib, schema, i, v.items[i]) == v.items[i]
        {
          if ItemSchema(schema, i).Some? {
            InertIsIdentity(lib, ItemSchema(schema, i).value, v.items[i]);
          }
        }
      }
    }
    SameChildren(lib, schema, v);
  }

  /** Under that condition a conforming value is returned as it is. */
  lemma {:induction false} ConformingIsUnchanged(lib: Lib, schema: Value, v: Value)
    requires Keeps(schema) && Conforms(schema, v)
    ensures Coerce(lib, schema, v) == v
    decreases schema
  {
    hide Primitive, SchemaTypes, Coerce, Plain, TypeOk, RequiredKeys, InBounds, Inert;
    WellTypedUnchanged(lib, SchemaTypes(schema), v);
    if Properties(schema).Some? {
      if v.Obj? {
        forall k | k in v.fields
          ensures CoerceField(lib, schema, Properties(schema).value, k, v.fields[k]) == v.fields[k]
        {
          if k in Properties(schema).value {
            ConformingIsUnchanged(lib, Properties(schema).value[k], v.fields[k]);
          } else if Additional(schema).Some? {
            InertIsIdentity(lib, Additional(schema).value, v.fields[k]);
          }
        }
      } else if v.Arr? {
        forall i | 0 <= i < |v.items|
          ensures CoerceItem(lib, schema, i, v.items[i]) == v.items[i]
        {
          if ItemSchema(schema, i).Some? {
            ConformingIsUnchanged(lib, ItemSchema(schema, i).value, v.items[i]);
          }
        }
      }
    }
    SameChildren(lib, schema, v);
  }

  // ---------------------------------------------------------------------
  // And the converse
  // ---------------------------------------------------------------------

  predicate Changes(lib: Lib, schema: Value, v: Value) {
    Coerce(lib, schema, v) != v
  }

  lemma ChangedField(lib: Lib, schema: Value, k: string, inner: Value, w: Value)
    requires Properties(schema).Some? && Changes(lib, inner, w)
    requires if k in Properties(schema).value then inner == Properties(schema).value[k]
             else Additional(schema) == Some(inner)
    ensures Changes(lib, schema, Obj(map[k := w]))
  {
    hide Coerce, Children, SchemaTypes;
    var v := Obj(map[k := w]);
    CoerceContainer(lib, schema, v);
    ChildrenOf(lib, schema, v);
    assert Coerce(lib, schema, v).fields[k] == Coerce(lib, inner, w);
  }

  lemma ChangedItem(lib: Lib, schema: Value, before: seq<Value>, inner: Value, w: Value)
    requires Properties(schema).Some? && ItemSchema(schema, |before|) == Some(inner) && Changes(lib, inner, w)
    ensures Changes(lib, schema, Arr(before + [w]))
  {
    hide Coerce, Children, SchemaTypes;
    var v := Arr(before + [w]);
    CoerceContainer(lib, schema, v);
    ChildrenOf(lib, schema, v);
    assert Coerce(lib, schema, v).items[|before|] == Coerce(lib, inner, w);
  }

  lemma ConvertingChanges(lib: Lib, schema: Value) returns (v: Value)
    requires Printable(lib) && Converts(SchemaTypes(schema))
    ensures Changes(lib, schema, v)
  {
    hide Primitive, Coerce, SchemaTypes;
    var types := SchemaTypes(schema);
    StringConverts(lib, types);
    if "string" in types {
      NumberPrints(lib, types);
      v := Num(Integer(1));
    } else {
      v := if "number" in types || "integer" in types then Str(lib.show(Integer(1))) else Str("true");
    }
    CoerceScalar(lib, schema, v);
  }

  lemma {:induction false} NotInertChanges(lib: Lib, schema: Value) returns (v: Value)
    requires Printable(lib) && !Inert(schema)
    ensures Changes(lib, schema, v)
    decreases schema
  {
    hide Changes, SchemaTypes, Converts;
    if Converts(SchemaTypes(schema)) {
      v := ConvertingChanges(lib, schema);
    } else {
      var props := Properties(schema).value;
      if k :| k in props && !Inert(props[k]) {
        var w := NotInertChanges(lib, props[k]);
        ChangedField(lib, schema, k, props[k], w);
        v := Obj(map[k := w]);
      } else if Additional(schema).Some? && !Inert(Additional(schema).value) {
        var k := FreshKey(props.Keys);
        var w := NotInertChanges(lib, Additional(schema).value);
        ChangedField(lib, schema, k, Additional(schema).value, w);
        v := Obj(map[k := w]);
      } else {
        var i: nat :| ItemSchema(schema, i).Some? && !Inert(ItemSchema(schema, i).value);
        var w := NotInertChanges(lib, ItemSchema(schema, i).value);
        var before := seq(i, j requires 0 <= j < i => Null);
        ChangedItem(lib, schema, before, ItemSchema(schema, i).value, w);
        v := Arr(before + [w]);
      }
    }
  }

  /** Coercion by a schema is the identity exactly when it is inert. */
  lemma IdentityExactlyInert(lib: Lib, schema: Value)
    requires Printable(lib)
    ensures (forall v :: Coerce(lib, schema, v) == v) <==> Inert(schema)
  {
    hide Coerce, Inert;
    if Inert(schema) {
      forall v
        ensures Coerce(lib, schema, v) == v
      {
        InertIsIdentity(lib, schema, v);
      }
    } else {
      var v := NotInertChanges(lib, schema);
      assert Coerce(lib, schema, v) != v;
    }
  }

  predicate Accepts(types: seq<string>, ty: string) {
    types == [] || ty in types || HasOpenType(types)
  }

  /** No keyword but `type`, `properties` and `items` rejects anything, and
      values can reach every schema below. */
  ghost predicate Free(schema: Value)
    decreases schema
  {
    && Field(schema, "enum").None? && Field(schema, "const").None?
    && Field(schema, "minimum").None? && Field(schema, "maximum").None?
    && RequiredKeys(schema) == {} && !ClosedObject(schema)
    && (Properties(schema).Some? ==>
          && Accepts(SchemaTypes(schema), "object")
          && (forall k :: k in Properties(schema).value ==> Free(Properties(schema).value[k]))
          && (forall i: nat :: ItemSchema(schema, i).Some? ==>
                Accepts(SchemaTypes(schema), "array") && Free(ItemSchema(schema, i).value)))
  }

  lemma AcceptedType(types: seq<string>, ty: string, v: Value)
    requires Accepts(types, ty) && TypeMatches(ty, v)
    ensures TypeOk(types, v)
  {
    if ty in types {
      var i :| 0 <= i < |types| && types[i] == ty;
    } else if types != [] {
      OpenAccepts(types, v);
    }
  }

  /** A value of the first type asked for. */
  function Sample(types: seq<string>): Value {
    if types == [] then Null
    else match types[0]
      case "boolean" => Bool(true)
      case "integer" => Num(Integer(1))
      case "number" => Num(Integer(1))
      case "string" => Str("")
      case "array" => Arr([])
      case "object" => Obj(map[])
      case _ => Null
  }

  lemma SampleConforms(schema: Value)
    requires Free(schema)
    ensures Conforms(schema, Sample(SchemaTypes(schema)))
  {
    hide SchemaTypes, RequiredKeys, ClosedObject, Free, Conforms;
    var types := SchemaTypes(schema);
    var v := Sample(types);
    assert types != [] ==> TypeMatches(types[0], v);
    assert v.Obj? ==> v.fields == map[];
    FreeConforms(schema, v);
  }

  /** In a free schema only types and children count. */
  lemma FreeConforms(schema: Value, v: Value)
    requires Free(schema) && TypeOk(SchemaTypes(schema), v)
    requires v.Obj? && Properties(schema).Some? ==>
               forall k :: k in Properties(schema).value && k in v.fields ==>
                   Conforms(Properties(schema).value[k], v.fields[k])
    requires v.Arr? ==> forall i :: 0 <= i < |v.items| && ItemSchema(schema, i).Some? ==>
                          Conforms(ItemSchema(schema, i).value, v.items[i])
    ensures Conforms(schema, v)
  {
    hide SchemaTypes, TypeOk, RequiredKeys;
  }

  lemma FieldConforms(schema: Value, k: string, w: Value)
    requires Free(schema) && Properties(schema).Some?
    requires k in Properties(schema).value ==> Conforms(Properties(schema).value[k], w)
    ensures Conforms(schema, Obj(map[k := w]))
  {
    hide TypeOk, SchemaTypes, Conforms;
    var v := Obj(map[k := w]);
    AcceptedType(SchemaTypes(schema), "object", v);
    FreeConforms(schema, v);
  }

  /** The items before position `i`, each as its schema asks. */
  function Samples(schema: Value, i: nat): seq<Value> {
    seq(i, j requires 0 <= j < i =>
      if ItemSchema(schema, j).Some? then Sample(SchemaTypes(ItemSchema(schema, j).value)) else Null)
  }

  lemma ItemConforms(schema: Value, i: nat, w: Value)
    requires Free(schema) && Properties(schema).Some?
    requires ItemSchema(schema, i).Some? && Conforms(ItemSchema(schema, i).value, w)
    ensures Conforms(schema, Arr(Samples(schema, i) + [w]))
  {
    hide TypeOk, SchemaTypes, Conforms, Sample;
    var v := Arr(Samples(schema, i) + [w]);
    AcceptedType(SchemaTypes(schema), "array", v);
    forall j | 0 <= j < |v.items| && ItemSchema(schema, j).Some?
      ensures Conforms(ItemSchema(schema, j).value, v.items[j])
    {
      if j < i {
        SampleConforms(ItemSchema(schema, j).value);
      }
    }
    FreeConforms(schema, v);
  }

  lemma NotPlainChanges(lib: Lib, schema: Value) returns (v: Value)
    requires Printable(lib) && Free(schema) && !Plain(SchemaTypes(schema))
    ensures Conforms(schema, v) && Changes(lib, schema, v)
  {
    hide Primitive, Coerce, SchemaTypes, Conforms, TypeOk;
    var types := SchemaTypes(schema);
    StringConverts(lib, types);
    if "string" in types && HasOpenType(types) {
      NumberPrints(lib, types);
      v := Num(Integer(1));
      OpenAccepts(types, v);
    } else {
      v := if "number" in types || "integer" in types then Str(lib.show(Integer(1))) else Str("true");
      StringAccepted(types, v);
    }
    CoerceScalar(lib, schema, v);
    FreeConforms(schema, v);
  }

  lemma {:induction false} NotKeptChanges(lib: Lib, schema: Value) returns (v: Value)
    requires Printable(lib) && Free(schema) && !Keeps(schema)
    ensures Conforms(schema, v) && Changes(lib, schema, v)
    decreases schema
  {
    hide Changes, SchemaTypes, Plain, Conforms, Inert, RequiredKeys, ClosedObject;
    if !Plain(SchemaTypes(schema)) {
      v := NotPlainChanges(lib, schema);
    } else {
      var props := Properties(schema).value;
      if k :| k in props && !Keeps(props[k]) {
        var w := NotKeptChanges(lib, props[k]);
        ChangedField(lib, schema, k, props[k], w);
        FieldConforms(schema, k, w);
        v := Obj(map[k := w]);
      } else if Additional(schema).Some? && !Inert(Additional(schema).value) {
        var k := FreshKey(props.Keys);
        var w := NotInertChanges(lib, Additional(schema).value);
        ChangedField(lib, schema, k, Additional(schema).value, w);
        FieldConforms(schema, k, w);
        v := Obj(map[k := w]);
      } else {
        var i: nat :| ItemSchema(schema, i).Some? && !Keeps(ItemSchema(schema, i).value);
        var w := NotKeptChanges(lib, ItemSchema(schema, i).value);
        ChangedItem(lib, schema, Samples(schema, i), ItemSchema(schema, i).value, w);
        ItemConforms(schema, i, w);
        v := Arr(Samples(schema, i) + [w]);
      }
    }
  }

  /** In a free schema every conforming value is returned as it is exactly when
      every list is plain and schemas of additional properties are inert. */
  lemma ConformingUnchangedExactly(lib: Lib, schema: Value)
    requires Printable(lib) && Free(schema)
    ensures (forall v :: Conforms(schema, v) ==> Coerce(lib, schema, v) == v) <==> Keeps(schema)
  {
    hide Coerce, Conforms, Keeps, Free;
    if Keeps(schema) {
      forall v | Conforms(schema, v)
        ensures Coerce(lib, schema, v) == v
      {
        ConformingIsUnchanged(lib, schema, v);
      }
    } else {
      var v := NotKeptChanges(lib, schema);
      assert Coerce(lib, schema, v) != v;
    }
  }
}

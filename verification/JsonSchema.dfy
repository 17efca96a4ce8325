/** The recursive argument validator: the explicit-type subset of JSON Schema (Validation draft
    2020-12, sections 6.1.1, 6.1.2 and 6.5.3) that tool schemas use. */
module JsonSchema {
  import opened Text
  import opened Protocol

  type Schema = map<string, Value>

  datatype PathStep = Key(name: string) | Item(index: nat)

  datatype SchemaError =
    | NotInEnum(path: seq<PathStep>)
    | WrongType(path: seq<PathStep>, expected: string)
    | MissingRequired(name: string)
    | NotAllowed(path: seq<PathStep>, name: string)

  /** In which order `range` visits the keys of a map: any order, but each key once. */
  type Order = map<string, Value> -> seq<string>

  ghost predicate OrderOk(order: Order) {
    forall m :: Elements(order(m)) == m.Keys && Distinct(order(m))
  }

  predicate EnumOk(codec: Codec, v: Value, s: Schema) {
    Field(s, "enum").Arr? ==>
      exists k :: 0 <= k < |Field(s, "enum").items| && codec.encode(v) == codec.encode(Field(s, "enum").items[k])
  }

  /** A required entry that is not a string stands for the empty name. */
  function RequiredName(raw: Value): string {
    if raw.Str? then raw.text else ""
  }

  function FirstMissing(required: seq<Value>, m: map<string, Value>): Option<string> {
    if required == [] then None
    else if RequiredName(required[0]) !in m then Some(RequiredName(required[0]))
    else FirstMissing(required[1..], m)
  }

  function Properties(s: Schema): map<string, Value> {
    if Field(s, "properties").Obj? then Field(s, "properties").fields else map[]
  }

  predicate Closed(s: Schema) {
    Field(s, "additionalProperties") == Bool(false)
  }

  function FirstForeign(keys: seq<string>, props: map<string, Value>): Option<string> {
    if keys == [] then None else if keys[0] !in props then Some(keys[0]) else FirstForeign(keys[1..], props)
  }

  function RequiredOf(s: Schema): seq<Value> {
    if Field(s, "required").Arr? then Field(s, "required").items else []
  }

  predicate SimpleTypeOk(v: Value, typ: string) {
    match typ
    case "string" => v.Str?
    case "number" => v.Num?
    case "integer" => v.Num? && v.number.Floor as real == v.number
    case "boolean" => v.Bool?
    case "null" => v.Null?
    case _ => true
  }

  function Whole(n: int): Value {
    Num(n as real)
  }

  /** What the simple types admit; an unknown or missing type admits everything. */
  lemma TypeExactly(v: Value, typ: string)
    ensures SimpleTypeOk(v, "string") <==> exists text :: v == Str(text)
    ensures SimpleTypeOk(v, "number") <==> exists x :: v == Num(x)
    ensures SimpleTypeOk(v, "integer") <==> exists n :: v == Whole(n)
    ensures SimpleTypeOk(v, "boolean") <==> v == Bool(true) || v == Bool(false)
    ensures SimpleTypeOk(v, "null") <==> v == Null
    ensures typ !in {"string", "number", "integer", "boolean", "null"} ==> SimpleTypeOk(v, typ)
  {
    if v.Num? && v.number.Floor as real == v.number {
      assert v == Whole(v.number.Floor);
    }
    if v.Str? { assert v == Str(v.text); }
    if v.Num? { assert v == Num(v.number); }
  }

  // ---------------------------------------------------------------------------------------------
  // The validator
  // ---------------------------------------------------------------------------------------------

  /** `None` accepts the value. */
  function Validate(codec: Codec, order: Order, v: Value, s: Schema, path: seq<PathStep>): Option<SchemaError>
    requires OrderOk(order)
    decreases v, 1, 0
  {
    if !EnumOk(codec, v, s) then Some(NotInEnum(path))
    else
      var typ := StrField(s, "type");
      if typ == "object" then
        if !v.Obj? then Some(WrongType(path, typ))
        else if FirstMissing(RequiredOf(s), v.fields).Some? then
          Some(MissingRequired(FirstMissing(RequiredOf(s), v.fields).value))
        else if Closed(s) && FirstForeign(order(v.fields), Properties(s)).Some? then
          Some(NotAllowed(path, FirstForeign(order(v.fields), Properties(s)).value))
        else
          assert forall k | k in order(v.fields) :: k in Elements(order(v.fields));
          ValidateFields(codec, order, v, order(v.fields), Properties(s), path)
      else if typ == "array" then
        if !v.Arr? then Some(WrongType(path, typ))
        else if Field(s, "items").Obj? then ValidateItems(codec, order, v, 0, Field(s, "items").fields, path)
        else None
      else if !SimpleTypeOk(v, typ) then Some(WrongType(path, typ))
      else None
  }

  function ValidateFields(codec: Codec, order: Order, v: Value, keys: seq<string>, props: map<string, Value>,
                          path: seq<PathStep>): Option<SchemaError>
    requires OrderOk(order) && v.Obj? && forall k | k in keys :: k in v.fields
    decreases v, 0, |keys|
  {
    if keys == [] then None
    else
      var n := keys[0];
      assert forall k | k in keys[1..] :: k in keys;
      var err := if Field(props, n).Obj?
                 then Validate(codec, order, v.fields[n], Field(props, n).fields, path + [Key(n)]) else None;
      if err.Some? then err else ValidateFields(codec, order, v, keys[1..], props, path)
  }

  function ValidateItems(codec: Codec, order: Order, v: Value, i: nat, item: Schema,
                         path: seq<PathStep>): Option<SchemaError>
    requires OrderOk(order) && v.Arr? && i <= |v.items|
    decreases v, 0, |v.items| - i
  {
    if i == |v.items| then None
    else
      var err := Validate(codec, order, v.items[i], item, path + [Item(i)]);
      if err.Some? then err else ValidateItems(codec, order, v, i + 1, item, path)
  }

  // ---------------------------------------------------------------------------------------------
  // The declarative reading
  // ---------------------------------------------------------------------------------------------

  /** The checks that concern one value and one schema alone. */
  ghost predicate LocalOk(codec: Codec, v: Value, s: Schema) {
    && EnumOk(codec, v, s)
    && SimpleTypeOk(v, StrField(s, "type"))
    && (StrField(s, "type") == "array" ==> v.Arr?)
    && (StrField(s, "type") == "object" ==>
          && v.Obj?
          && (Field(s, "required").Arr? ==>
                forall raw | raw in Field(s, "required").items ::
                  if raw.Str? then raw.text in v.fields else "" in v.fields)
          && (Field(s, "additionalProperties") == Bool(false) ==>
                forall n | n in v.fields :: Field(s, "properties").Obj? && n in Field(s, "properties").fields))
  }

  /** The pair one step below: a property with its own schema, or an item with the item schema. */
  function Below(v: Value, s: Schema, step: PathStep): Option<(Value, Schema)> {
    match step
    case Key(n) =>
      if StrField(s, "type") == "object" && v.Obj? && n in v.fields && Field(Properties(s), n).Obj?
      then Some((v.fields[n], Field(Properties(s), n).fields)) else None
    case Item(i) =>
      if StrField(s, "type") == "array" && v.Arr? && i < |v.items| && Field(s, "items").Obj?
      then Some((v.items[i], Field(s, "items").fields)) else None
  }

  /** The pair that is reached by descending into value and schema together. */
  function Reached(v: Value, s: Schema, path: seq<PathStep>): Option<(Value, Schema)>
    decreases |path|
  {
    if path == [] then Some((v, s))
    else
      match Below(v, s, path[0])
      case None => None
      case Some(p) => Reached(p.0, p.1, path[1..])
  }

  ghost predicate Conforms(codec: Codec, v: Value, s: Schema) {
    forall path: seq<PathStep> {:trigger Reached(v, s, path)} ::
      Reached(v, s, path).Some? ==> LocalOk(codec, Reached(v, s, path).value.0, Reached(v, s, path).value.1)
  }

  lemma {:induction false} FirstMissingExactly(required: seq<Value>, m: map<string, Value>)
    ensures FirstMissing(required, m).None? <==> forall raw | raw in required :: RequiredName(raw) in m
  {
    if required != [] {
      assert required == [required[0]] + required[1..];
      FirstMissingExactly(required[1..], m);
    }
  }

  lemma {:induction false} FirstForeignExactly(keys: seq<string>, props: map<string, Value>)
    ensures FirstForeign(keys, props).None? <==> forall k | k in keys :: k in props
  {
    if keys != [] {
      assert keys == [keys[0]] + keys[1..];
      FirstForeignExactly(keys[1..], props);
    }
  }

  /** Every property that has a schema of its own is accepted by it. */
  ghost predicate FieldsOk(codec: Codec, order: Order, v: Value, keys: seq<string>, props: map<string, Value>,
                           path: seq<PathStep>)
    requires OrderOk(order) && v.Obj? && forall k | k in keys :: k in v.fields
  {
    forall n | n in keys && Field(props, n).Obj? ::
      Validate(codec, order, v.fields[n], Field(props, n).fields, path + [Key(n)]).None?
  }

  lemma {:induction false} FieldsExactly(codec: Codec, order: Order, v: Value, keys: seq<string>,
                                         props: map<string, Value>, path: seq<PathStep>)
    requires OrderOk(order) && v.Obj? && forall k | k in keys :: k in v.fields
    ensures ValidateFields(codec, order, v, keys, props, path).None? <==> FieldsOk(codec, order, v, keys, props, path)
    decreases |keys|
  {
    if keys != [] {
      assert keys == [keys[0]] + keys[1..];
      FieldsExactly(codec, order, v, keys[1..], props, path);
    }
  }

  lemma {:induction false} ItemsExactly(codec: Codec, order: Order, v: Value, i: nat, item: Schema, path: seq<PathStep>)
    requires OrderOk(order) && v.Arr? && i <= |v.items|
    ensures ValidateItems(codec, order, v, i, item, path).None? <==>
              forall k | i <= k < |v.items| :: Validate(codec, order, v.items[k], item, path + [Item(k)]).None?
    decreases |v.items| - i
  {
    if i < |v.items| {
      ItemsExactly(codec, order, v, i + 1, item, path);
    }
  }

  ghost predicate BelowOk(codec: Codec, order: Order, v: Value, s: Schema, path: seq<PathStep>)
    requires OrderOk(order)
  {
    forall step | Below(v, s, step).Some? ::
      Validate(codec, order, Below(v, s, step).value.0, Below(v, s, step).value.1, path + [step]).None?
  }

  lemma ObjectLevel(codec: Codec, order: Order, v: Value, s: Schema, path: seq<PathStep>)
    requires OrderOk(order) && StrField(s, "type") == "object" && v.Obj? && EnumOk(codec, v, s)
    ensures Validate(codec, order, v, s, path).None? <==> LocalOk(codec, v, s) && BelowOk(codec, order, v, s, path)
  {
    var keys, props := order(v.fields), Properties(s);
    assert Elements(keys) == v.fields.Keys;
    assert forall k :: k in keys <==> k in Elements(keys);
    FirstMissingExactly(RequiredOf(s), v.fields);
    FirstForeignExactly(keys, props);
    FieldsExactly(codec, order, v, keys, props, path);
    assert FieldsOk(codec, order, v, keys, props, path) <==> BelowOk(codec, order, v, s, path) by {
      FieldsAreBelow(codec, order, v, s, path);
    }
  }

  lemma FieldsAreBelow(codec: Codec, order: Order, v: Value, s: Schema, path: seq<PathStep>)
    requires OrderOk(order) && StrField(s, "type") == "object" && v.Obj?
    requires forall k :: k in order(v.fields) <==> k in v.fields
    ensures FieldsOk(codec, order, v, order(v.fields), Properties(s), path) <==> BelowOk(codec, order, v, s, path)
  {
    var keys, props := order(v.fields), Properties(s);
    if BelowOk(codec, order, v, s, path) {
      forall n | n in keys && Field(props, n).Obj?
        ensures Validate(codec, order, v.fields[n], Field(props, n).fields, path + [Key(n)]).None?
      {
        assert Below(v, s, Key(n)) == Some((v.fields[n], Field(props, n).fields));
      }
    }
    if FieldsOk(codec, order, v, keys, props, path) {
      forall step | Below(v, s, step).Some?
        ensures Validate(codec, order, Below(v, s, step).value.0, Below(v, s, step).value.1, path + [step]).None?
      {
        assert step == Key(step.name) && step.name in keys;
      }
    }
  }

  lemma ArrayLevel(codec: Codec, order: Order, v: Value, s: Schema, path: seq<PathStep>)
    requires OrderOk(order) && StrField(s, "type") == "array" && v.Arr? && Field(s, "items").Obj?
    requires EnumOk(codec, v, s)
    ensures Validate(codec, order, v, s, path).None? <==> LocalOk(codec, v, s) && BelowOk(codec, order, v, s, path)
  {
    var item := Field(s, "items").fields;
    ItemsExactly(codec, order, v, 0, item, path);
    if BelowOk(codec, order, v, s, path) {
      forall k | 0 <= k < |v.items| ensures Validate(codec, order, v.items[k], item, path + [Item(k)]).None? {
        assert Below(v, s, Item(k)) == Some((v.items[k], item));
      }
    }
    if forall k | 0 <= k < |v.items| :: Validate(codec, order, v.items[k], item, path + [Item(k)]).None? {
      forall step | Below(v, s, step).Some?
        ensures Validate(codec, order, Below(v, s, step).value.0, Below(v, s, step).value.1, path + [step]).None?
      {
        assert step == Item(step.index);
      }
    }
  }

  /** One level of the validator: the local checks, and the validator on every pair one step below. */
  lemma LevelExactly(codec: Codec, order: Order, v: Value, s: Schema, path: seq<PathStep>)
    requires OrderOk(order)
    ensures Validate(codec, order, v, s, path).None? <==> LocalOk(codec, v, s) && BelowOk(codec, order, v, s, path)
  {
    var typ := StrField(s, "type");
    if EnumOk(codec, v, s) {
      if typ == "object" && v.Obj? {
        ObjectLevel(codec, order, v, s, path);
      } else if typ == "array" && v.Arr? && Field(s, "items").Obj? {
        ArrayLevel(codec, order, v, s, path);
      } else {
        assert forall step :: Below(v, s, step).None?;
      }
    }
  }

  lemma ConformsBelow(codec: Codec, v: Value, s: Schema, step: PathStep)
    requires Conforms(codec, v, s) && Below(v, s, step).Some?
    ensures Conforms(codec, Below(v, s, step).value.0, Below(v, s, step).value.1)
  {
    var p := Below(v, s, step).value;
    forall path: seq<PathStep> | Reached(p.0, p.1, path).Some?
      ensures LocalOk(codec, Reached(p.0, p.1, path).value.0, Reached(p.0, p.1, path).value.1)
    {
      assert ([step] + path)[1..] == path;
      assert Reached(v, s, [step] + path) == Reached(p.0, p.1, path);
    }
  }

  lemma {:induction false} AcceptedReached(codec: Codec, order: Order, v: Value, s: Schema,
                                           at: seq<PathStep>, path: seq<PathStep>)
    requires OrderOk(order) && Validate(codec, order, v, s, at).None? && Reached(v, s, path).Some?
    ensures LocalOk(codec, Reached(v, s, path).value.0, Reached(v, s, path).value.1)
    decreases |path|
  {
    LevelExactly(codec, order, v, s, at);
    if path != [] {
      var p := Below(v, s, path[0]).value;
      AcceptedReached(codec, order, p.0, p.1, at + [path[0]], path[1..]);
    }
  }

  lemma {:induction false} ConformingAccepted(codec: Codec, order: Order, v: Value, s: Schema, at: seq<PathStep>)
    requires OrderOk(order) && Conforms(codec, v, s)
    ensures Validate(codec, order, v, s, at).None?
    decreases v
  {
    assert Reached(v, s, []) == Some((v, s));
    forall step | Below(v, s, step).Some?
      ensures Validate(codec, order, Below(v, s, step).value.0, Below(v, s, step).value.1, at + [step]).None?
    {
      ConformsBelow(codec, v, s, step);
      ConformingAccepted(codec, order, Below(v, s, step).value.0, Below(v, s, step).value.1, at + [step]);
    }
    LevelExactly(codec, order, v, s, at);
  }

  /** The validator accepts a value if and only if every pair that is reached by descending into value
      and schema together passes its local checks. */
  lemma AcceptsExactly(codec: Codec, order: Order, v: Value, s: Schema, at: seq<PathStep>)
    requires OrderOk(order)
    ensures Validate(codec, order, v, s, at).None? <==> Conforms(codec, v, s)
  {
    if Validate(codec, order, v, s, at).None? {
      forall path | Reached(v, s, path).Some?
        ensures LocalOk(codec, Reached(v, s, path).value.0, Reached(v, s, path).value.1)
      {
        AcceptedReached(codec, order, v, s, at, path);
      }
    }
    if Conforms(codec, v, s) {
      ConformingAccepted(codec, order, v, s, at);
    }
  }

  /** The verdict does not depend on the order in which the keys of maps are visited. */
  lemma VerdictIgnoresOrder(codec: Codec, o1: Order, o2: Order, v: Value, s: Schema, at: seq<PathStep>)
    requires OrderOk(o1) && OrderOk(o2)
    ensures Validate(codec, o1, v, s, at).None? <==> Validate(codec, o2, v, s, at).None?
  {
    AcceptsExactly(codec, o1, v, s, at);
    AcceptsExactly(codec, o2, v, s, at);
  }

  /** Where the codec reads back the values at hand, an enum is membership of the value. */
  lemma EnumByValue(codec: Codec, v: Value, s: Schema)
    requires Field(s, "enum").Arr? && Faithful(codec, v)
    requires forall e | e in Field(s, "enum").items :: Faithful(codec, e)
    ensures EnumOk(codec, v, s) <==> v in Field(s, "enum").items
  {
    var items := Field(s, "enum").items;
    assert codec.decode(codec.encode(v)) == Some(v);
    if EnumOk(codec, v, s) {
      var k :| 0 <= k < |items| && codec.encode(v) == codec.encode(items[k]);
      assert items[k] in items && codec.decode(codec.encode(items[k])) == Some(items[k]);
    }
  }

  function FunctionOf(tool: map<string, Value>): map<string, Value> {
    if Field(tool, "function").Obj? then Field(tool, "function").fields else map[]
  }

  /** The function of the first tool that has the name. */
  function ToolFunction(name: string, tools: seq<map<string, Value>>): map<string, Value> {
    if tools == [] then map[]
    else if StrField(FunctionOf(tools[0]), "name") == name then FunctionOf(tools[0])
    else ToolFunction(name, tools[1..])
  }

  lemma {:induction false} ToolFunctionFound(name: string, tools: seq<map<string, Value>>)
    ensures ToolFunction(name, tools) != map[] ==>
              exists k ::
                0 <= k < |tools| && IsFirst(name, tools, k) && ToolFunction(name, tools) == FunctionOf(tools[k])
  {
    if tools != [] {
      if StrField(FunctionOf(tools[0]), "name") == name {
        assert IsFirst(name, tools, 0);
      } else {
        ToolFunctionFound(name, tools[1..]);
        if ToolFunction(name, tools) != map[] {
          var k :| 0 <= k < |tools[1..]| && IsFirst(name, tools[1..], k)
            && ToolFunction(name, tools[1..]) == FunctionOf(tools[1..][k]);
          forall i | 0 <= i < k + 1 ensures StrField(FunctionOf(tools[i]), "name") != name {
            assert i > 0 ==> tools[i] == tools[1..][i - 1];
          }
          assert tools[k + 1] == tools[1..][k] && IsFirst(name, tools, k + 1);
        }
      }
    }
  }

  /** Tool `k` has the name, and none before it has. */
  predicate IsFirst(name: string, tools: seq<map<string, Value>>, k: nat)
    requires k < |tools|
  {
    && StrField(FunctionOf(tools[k]), "name") == name
    && forall i | 0 <= i < k :: StrField(FunctionOf(tools[i]), "name") != name
  }

  /** A function without a parameter schema takes any arguments. */
  function SchemaValid(codec: Codec, order: Order, args: map<string, Value>, fn: map<string, Value>)
    : Option<SchemaError>
    requires OrderOk(order)
  {
    if Field(fn, "parameters").Obj? then Validate(codec, order, Obj(args), Field(fn, "parameters").fields, []) else None
  }

  /** What it means that the arguments of a call are accepted by the function found for its name: it is
      the function of the first tool with that name, the arguments have all required names and, where
      the schema is closed, no others, and they conform to the schemas of their properties. */
  lemma AcceptedArguments(codec: Codec, order: Order, name: string, args: map<string, Value>,
                          tools: seq<map<string, Value>>)
    requires OrderOk(order) && Field(ToolFunction(name, tools), "parameters").Obj?
    requires StrField(Field(ToolFunction(name, tools), "parameters").fields, "type") == "object"
    requires SchemaValid(codec, order, args, ToolFunction(name, tools)).None?
    ensures exists k :: 0 <= k < |tools| && IsFirst(name, tools, k) && ToolFunction(name, tools) == FunctionOf(tools[k])
    ensures var s := Field(ToolFunction(name, tools), "parameters").fields;
            && (Field(s, "required").Arr? ==>
                  forall raw | raw in Field(s, "required").items :: if raw.Str? then raw.text in args else "" in args)
            && (Field(s, "additionalProperties") == Bool(false) ==>
                  forall n | n in args :: Field(s, "properties").Obj? && n in Field(s, "properties").fields)
            && (forall n | n in args && Field(Properties(s), n).Obj? ::
                  Conforms(codec, args[n], Field(Properties(s), n).fields))
  {
    var s := Field(ToolFunction(name, tools), "parameters").fields;
    ToolFunctionFound(name, tools);
    AcceptsExactly(codec, order, Obj(args), s, []);
    LevelExactly(codec, order, Obj(args), s, []);
    forall n | n in args && Field(Properties(s), n).Obj?
      ensures Conforms(codec, args[n], Field(Properties(s), n).fields)
    {
      ConformsBelow(codec, Obj(args), s, Key(n));
    }
  }
}

/**
 * From collection schemas to GraphQL definitions (cli/generate-rxdb/src/walker.ts:104-364,
 * cli/generate-rxdb/src/generator.ts:20-86, 126-270).
 *
 * A definition is its keyword, its name and its fields with their printed types.
 */
module SchemaWalker {
  import opened Wrappers
  import opened InputTypes

  // ----- The schema's syntax tree -----

  datatype Key = Text(name: string) | NotText

  datatype Property = Property(key: Key, optional: bool, ast: Ast)

  datatype Ast =
    | TypeLiteral(properties: seq<Property>, indexed: bool)
    | Refinement(identifier: Option<string>, from: Ast)
    | Transformation(identifier: Option<string>, from: Ast)
    | Union(types: seq<Ast>)
    | Literal
    | TupleType(rest: seq<Ast>)
    | Node(tag: string)

  datatype Field = Field(name: string, typ: string, nullable: bool)

  datatype NestedType = NestedType(name: string, fields: seq<Field>)

  datatype WalkError =
    | UnsupportedSchemaType(fieldName: string, schemaType: string)
    | InvalidPropertyKey
    | UnrecognizedNode(tag: string)

  /** A type, with the nested types found so far. */
  datatype Typed = Typed(typ: string, nested: seq<NestedType>)

  datatype Walked = Walked(fields: seq<Field>, nested: seq<NestedType>)

  function Tag(ast: Ast): string {
    match ast
    case TypeLiteral(_, _) => "TypeLiteral"
    case Refinement(_, _) => "Refinement"
    case Transformation(_, _) => "Transformation"
    case Union(_) => "Union"
    case Literal => "Literal"
    case TupleType(_) => "TupleType"
    case Node(tag) => tag
  }

  function KeywordType(tag: string, fieldName: string): Option<string> {
    if tag == "StringKeyword" then Some(if fieldName == "id" then "ID" else "String")
    else if tag == "NumberKeyword" then Some("Float")
    else if tag == "BooleanKeyword" then Some("Boolean")
    else if tag == "UnknownKeyword" then Some("JSON")
    else None
  }

  function Upper(c: char): char {
    if 'a' <= c <= 'z' then c - 'a' + 'A' else c
  }

  function NestedTypeName(collectionName: string, fieldName: string): string {
    collectionName + if fieldName == "" then "" else [Upper(fieldName[0])] + fieldName[1..]
  }

  function FirstDefined(types: seq<Ast>): (i: nat)
    ensures i <= |types|
  {
    if types == [] || (types[0] != Node("UndefinedKeyword") && types[0] != Node("VoidKeyword")) then 0
    else 1 + FirstDefined(types[1..])
  }

  function DetermineType(ast: Ast, fieldName: string, collectionName: string, nested: seq<NestedType>)
    : Result<Typed, WalkError>
    decreases ast, 0
  {
    match ast
    case Node(tag) =>
      (match KeywordType(tag, fieldName)
       case Some(typ) => Ok(Typed(typ, nested))
       case None => Err(UnsupportedSchemaType(fieldName, tag)))
    case TypeLiteral(properties, _) =>
      if properties == [] then Ok(Typed("JSON", nested))
      else
        var name := NestedTypeName(collectionName, fieldName);
        (match WalkProperties(ast, 0, name, nested)
         case Err(e) => Err(e)
         case Ok(Walked(fields, found)) => Ok(Typed(name, found + [NestedType(name, fields)])))
    case Refinement(identifier, from) =>
      if identifier == Some("Int") then Ok(Typed("Int", nested))
      else DetermineType(from, fieldName, collectionName, nested)
    case Transformation(identifier, from) =>
      if identifier == Some("DateTimeUtc") then Ok(Typed("DateTimeISO", nested))
      else if identifier == Some("BigInt") then Ok(Typed("String", nested))
      else DetermineType(from, fieldName, collectionName, nested)
    case Union(types) =>
      var i := FirstDefined(types);
      if i == |types| then Err(UnsupportedSchemaType(fieldName, "Union (all undefined)"))
      else DetermineType(types[i], fieldName, collectionName, nested)
    case Literal => Ok(Typed("String", nested))
    case TupleType(rest) =>
      if rest == [] then Ok(Typed("JSON", nested))
      else match DetermineType(rest[0], fieldName, collectionName, nested)
        case Err(e) => Err(e)
        case Ok(Typed(typ, found)) => Ok(Typed("[" + typ + "!]", found))
  }

  /** The properties of a type literal from `i` on. */
  function WalkProperties(literal: Ast, i: nat, collectionName: string, nested: seq<NestedType>)
    : Result<Walked, WalkError>
    requires literal.TypeLiteral? && i <= |literal.properties|
    decreases literal, 0, |literal.properties| - i
  {
    if i == |literal.properties| then Ok(Walked([], nested))
    else
      var Property(key, optional, ast) := literal.properties[i];
      if key.NotText? then Err(InvalidPropertyKey)
      else match DetermineType(ast, key.name, collectionName, nested)
        case Err(e) => Err(e)
        case Ok(Typed(typ, found)) =>
          match WalkProperties(literal, i + 1, collectionName, found)
          case Err(e) => Err(e)
          case Ok(Walked(fields, all)) => Ok(Walked([Field(key.name, typ, optional)] + fields, all))
  }

  function WalkCollectionSchema(ast: Ast, collectionName: string): Result<Walked, WalkError> {
    if ast.TypeLiteral? then WalkProperties(ast, 0, collectionName, [])
    else Err(UnrecognizedNode(Tag(ast)))
  }

  // ----- Every reference resolves -----

  predicate IsScalar(name: string) {
    name in ["ID", "String", "Float", "Boolean", "JSON", "Int", "DateTimeISO"]
  }

  function Names(nested: seq<NestedType>): (names: seq<string>)
    ensures |names| == |nested| && forall i :: 0 <= i < |nested| ==> names[i] == nested[i].name
  {
    if nested == [] then [] else [nested[0].name] + Names(nested[1..])
  }

  /** Property names hold no punctuation of type references. */
  ghost predicate PlainKeys(ast: Ast) {
    match ast
    case TypeLiteral(properties, _) =>
      forall i :: 0 <= i < |properties| ==>
        PlainKeys(properties[i].ast) && (properties[i].key.Text? ==> PlainText(properties[i].key.name))
    case Refinement(_, from) => PlainKeys(from)
    case Transformation(_, from) => PlainKeys(from)
    case Union(types) => forall i :: 0 <= i < |types| ==> PlainKeys(types[i])
    case Literal => true
    case TupleType(rest) => forall i :: 0 <= i < |rest| ==> PlainKeys(rest[i])
    case Node(_) => true
  }

  ghost predicate RefersTo(typ: string, t: TypeRef, names: seq<string>) {
    typ == Print(t) && IsName(Base(t)) && (IsScalar(Base(t)) || Base(t) in names)
  }

  /** A printed type is a reference to a scalar or to one of the names. */
  ghost predicate Resolves(typ: string, names: seq<string>) {
    exists t :: RefersTo(typ, t, names)
  }

  ghost predicate FieldsResolve(fields: seq<Field>, names: seq<string>) {
    forall i :: 0 <= i < |fields| ==> Resolves(fields[i].typ, names)
  }

  /** A nested type only refers to nested types before it. */
  ghost predicate Ordered(nested: seq<NestedType>) {
    forall k :: 0 <= k < |nested| ==> OrderedAt(nested, k)
  }

  ghost predicate OrderedAt(nested: seq<NestedType>, k: int)
    requires 0 <= k < |nested|
  {
    IsName(nested[k].name) && FieldsResolve(nested[k].fields, Names(nested[..k]))
  }

  lemma ResolvesMore(typ: string, nested: seq<NestedType>, found: seq<NestedType>)
    requires nested <= found && Resolves(typ, Names(nested))
    ensures Resolves(typ, Names(found))
  {
    var t :| RefersTo(typ, t, Names(nested));
    if Base(t) in Names(nested) {
      var i :| 0 <= i < |nested| && Names(nested)[i] == Base(t);
      assert Names(found)[i] == Base(t);
    }
    assert RefersTo(typ, t, Names(found));
  }

  lemma OrderedAppend(nested: seq<NestedType>, last: NestedType)
    requires Ordered(nested) && IsName(last.name) && FieldsResolve(last.fields, Names(nested))
    ensures Ordered(nested + [last])
  {
    var all := nested + [last];
    forall k | 0 <= k < |all| ensures OrderedAt(all, k) {
      if k < |nested| {
        assert OrderedAt(nested, k) && all[..k] == nested[..k];
      } else {
        assert all[..k] == nested;
      }
    }
  }

  lemma ScalarIsName(typ: string)
    requires IsScalar(typ)
    ensures IsName(typ)
  {}

  lemma ScalarResolves(typ: string, names: seq<string>)
    requires IsScalar(typ)
    ensures Resolves(typ, names)
  {
    ScalarIsName(typ);
    assert RefersTo(typ, Named(typ), names);
  }

  lemma NestedNameIsName(collectionName: string, fieldName: string)
    requires IsName(collectionName) && PlainText(fieldName)
    ensures IsName(NestedTypeName(collectionName, fieldName))
  {
    if fieldName != "" {
      assert IsPlain(fieldName[0]) && IsPlain(Upper(fieldName[0]));
    }
  }

  /** What walking leaves: nested types are only added, stay in order, and the type refers to one of them or a scalar. */
  ghost predicate GoodType(r: Result<Typed, WalkError>, nested: seq<NestedType>) {
    r.Ok? ==> nested <= r.value.nested && Ordered(r.value.nested) && Resolves(r.value.typ, Names(r.value.nested))
  }

  ghost predicate GoodFields(r: Result<Walked, WalkError>, nested: seq<NestedType>) {
    r.Ok? ==> nested <= r.value.nested && Ordered(r.value.nested) && FieldsResolve(r.value.fields, Names(r.value.nested))
  }

  lemma {:induction false} DetermineGood(ast: Ast, fieldName: string, collectionName: string, nested: seq<NestedType>)
    requires PlainKeys(ast) && PlainText(fieldName) && IsName(collectionName) && Ordered(nested)
    ensures GoodType(DetermineType(ast, fieldName, collectionName, nested), nested)
    decreases ast, 0
  {
    match ast
    case Node(tag) =>
      if KeywordType(tag, fieldName).Some? { ScalarResolves(KeywordType(tag, fieldName).value, Names(nested)); }
    case TypeLiteral(properties, _) =>
      if properties == [] {
        ScalarResolves("JSON", Names(nested));
      } else {
        LiteralGood(ast, fieldName, collectionName, nested);
      }
    case Refinement(identifier, from) =>
      ScalarResolves("Int", Names(nested));
      DetermineGood(from, fieldName, collectionName, nested);
    case Transformation(identifier, from) =>
      ScalarResolves("DateTimeISO", Names(nested));
      ScalarResolves("String", Names(nested));
      DetermineGood(from, fieldName, collectionName, nested);
    case Union(types) =>
      if FirstDefined(types) < |types| {
        DetermineGood(types[FirstDefined(types)], fieldName, collectionName, nested);
      }
    case Literal => ScalarResolves("String", Names(nested));
    case TupleType(rest) =>
      if rest == [] {
        ScalarResolves("JSON", Names(nested));
      } else {
        DetermineGood(rest[0], fieldName, collectionName, nested);
        ListGood(DetermineType(rest[0], fieldName, collectionName, nested), nested);
      }
  }

  lemma ListGood(r: Result<Typed, WalkError>, nested: seq<NestedType>)
    requires GoodType(r, nested)
    ensures r.Ok? ==> Resolves("[" + r.value.typ + "!]", Names(r.value.nested))
  {
    if r.Ok? {
      var names := Names(r.value.nested);
      var t :| RefersTo(r.value.typ, t, names);
      assert Print(List(t, true)) == "[" + r.value.typ + "!]";
      assert RefersTo("[" + r.value.typ + "!]", List(t, true), names);
    }
  }

  lemma {:induction false} LiteralGood(ast: Ast, fieldName: string, collectionName: string, nested: seq<NestedType>)
    requires ast.TypeLiteral? && ast.properties != []
    requires PlainKeys(ast) && PlainText(fieldName) && IsName(collectionName) && Ordered(nested)
    ensures GoodType(DetermineType(ast, fieldName, collectionName, nested), nested)
    decreases ast, 0, |ast.properties| + 1
  {
    var name := NestedTypeName(collectionName, fieldName);
    NestedNameIsName(collectionName, fieldName);
    WalkGood(ast, 0, name, nested);
    var r := WalkProperties(ast, 0, name, nested);
    if r.Ok? {
      var all := r.value.nested + [NestedType(name, r.value.fields)];
      OrderedAppend(r.value.nested, NestedType(name, r.value.fields));
      assert Names(all)[|all| - 1] == name;
      assert RefersTo(name, Named(name), Names(all));
    }
  }

  lemma {:induction false} WalkGood(literal: Ast, i: nat, collectionName: string, nested: seq<NestedType>)
    requires literal.TypeLiteral? && i <= |literal.properties|
    requires PlainKeys(literal) && IsName(collectionName) && Ordered(nested)
    ensures GoodFields(WalkProperties(literal, i, collectionName, nested), nested)
    decreases literal, 0, |literal.properties| - i
  {
    if i < |literal.properties| {
      var Property(key, optional, ast) := literal.properties[i];
      if key.Text? {
        DetermineGood(ast, key.name, collectionName, nested);
        var r := DetermineType(ast, key.name, collectionName, nested);
        if r.Ok? {
          WalkGood(literal, i + 1, collectionName, r.value.nested);
          var rest := WalkProperties(literal, i + 1, collectionName, r.value.nested);
          if rest.Ok? {
            ResolvesMore(r.value.typ, r.value.nested, rest.value.nested);
          }
        }
      }
    }
  }

  /** A collection's fields, and its nested types', refer to scalars and to nested types defined before. */
  lemma CollectionResolves(ast: Ast, collectionName: string)
    requires PlainKeys(ast) && IsName(collectionName)
    ensures match WalkCollectionSchema(ast, collectionName)
            case Ok(Walked(fields, nested)) => Ordered(nested) && FieldsResolve(fields, Names(nested))
            case Err(_) => true
  {
    if ast.TypeLiteral? {
      WalkGood(ast, 0, collectionName, []);
    }
  }

  /** The fields of a type literal are its properties, in order, with their names and nullability. */
  lemma {:induction false} FieldsFollowProperties(literal: Ast, i: nat, collectionName: string, nested: seq<NestedType>)
    requires literal.TypeLiteral? && i <= |literal.properties|
    requires WalkProperties(literal, i, collectionName, nested).Ok?
    ensures var fields := WalkProperties(literal, i, collectionName, nested).value.fields;
            && |fields| == |literal.properties| - i
            && forall j :: 0 <= j < |fields| ==>
                 var property := literal.properties[i + j];
                 property.key == Text(fields[j].name) && fields[j].nullable == property.optional
    decreases |literal.properties| - i
  {
    if i < |literal.properties| {
      var Property(key, optional, ast) := literal.properties[i];
      var found := DetermineType(ast, key.name, collectionName, nested).value.nested;
      FieldsFollowProperties(literal, i + 1, collectionName, found);
    }
  }
}

/**
 * From the properties of a collection to the fields of its types (cli/generate-rxdb/src/walker.ts:104-364,
 * cli/generate-rxdb/src/generator.ts:137-293).
 *
 * The walk threads the nested types through its calls; here each part of a schema says for itself what type it has
 * and which nested types it brings, and the walk is proved to put exactly these together.
 */
module SchemaTypes {
  import opened Wrappers
  import opened Seqs
  import opened InputTypes
  import opened SchemaWalker
  import opened SchemaGenerator

  const KEYWORDS := map["NumberKeyword" := "Float", "BooleanKeyword" := "Boolean", "UnknownKeyword" := "JSON"]

  /** What has a GraphQL type. */
  ghost predicate Supported(ast: Ast) {
    match ast
    case Node(tag) => tag == "StringKeyword" || tag in KEYWORDS
    case TypeLiteral(properties, _) =>
      forall i :: 0 <= i < |properties| ==> properties[i].key.Text? && Supported(properties[i].ast)
    case Refinement(identifier, from) => identifier == Some("Int") || Supported(from)
    case Transformation(identifier, from) =>
      identifier == Some("DateTimeUtc") || identifier == Some("BigInt") || Supported(from)
    case Union(types) => FirstDefined(types) < |types| && Supported(types[FirstDefined(types)])
    case Literal => true
    case TupleType(rest) => rest == [] || Supported(rest[0])
  }

  /** The member of a union that counts is the first that is neither undefined nor void. */
  lemma {:induction false} FirstDefinedIs(types: seq<Ast>, i: nat)
    requires i <= |types|
    ensures FirstDefined(types) == i <==>
            && (forall j :: 0 <= j < i ==> types[j] in [Node("UndefinedKeyword"), Node("VoidKeyword")])
            && (i < |types| ==> types[i] !in [Node("UndefinedKeyword"), Node("VoidKeyword")])
  {
    if types != [] {
      assert types == [types[0]] + types[1..];
      if i > 0 { FirstDefinedIs(types[1..], i - 1); }
    }
  }

  /** The type of a property: a keyword's, a marked number's or time's, a list's or a nested type's name. */
  ghost function TypeText(ast: Ast, fieldName: string, collectionName: string): string
    requires Supported(ast)
  {
    match ast
    case Node(tag) => if tag in KEYWORDS then KEYWORDS[tag] else if fieldName == "id" then "ID" else "String"
    case TypeLiteral(properties, _) => if properties == [] then "JSON" else NestedTypeName(collectionName, fieldName)
    case Refinement(identifier, from) =>
      if identifier == Some("Int") then "Int" else TypeText(from, fieldName, collectionName)
    case Transformation(identifier, from) =>
      if identifier == Some("DateTimeUtc") then "DateTimeISO"
      else if identifier == Some("BigInt") then "String"
      else TypeText(from, fieldName, collectionName)
    case Union(types) => TypeText(types[FirstDefined(types)], fieldName, collectionName)
    case Literal => "String"
    case TupleType(rest) => if rest == [] then "JSON" else "[" + TypeText(rest[0], fieldName, collectionName) + "!]"
  }

  ghost function FieldOf(property: Property, collectionName: string): Field
    requires property.key.Text? && Supported(property.ast)
  {
    Field(property.key.name, TypeText(property.ast, property.key.name, collectionName), property.optional)
  }

  /** The fields of a struct are its properties, in order. */
  ghost function FieldsOf(literal: Ast, i: nat, collectionName: string): (fields: seq<Field>)
    requires literal.TypeLiteral? && Supported(literal) && i <= |literal.properties|
    ensures |fields| == |literal.properties| - i
    ensures forall j :: 0 <= j < |fields| ==> fields[j] == FieldOf(literal.properties[i + j], collectionName)
    decreases |literal.properties| - i
  {
    if i == |literal.properties| then []
    else [FieldOf(literal.properties[i], collectionName)] + FieldsOf(literal, i + 1, collectionName)
  }

  /** The nested types a property brings; a struct comes after those it refers to. */
  ghost function NestedOf(ast: Ast, fieldName: string, collectionName: string): seq<NestedType>
    requires Supported(ast)
    decreases ast, 0
  {
    match ast
    case Node(_) => []
    case TypeLiteral(properties, _) =>
      if properties == [] then []
      else
        var name := NestedTypeName(collectionName, fieldName);
        NestedIn(ast, 0, name) + [NestedType(name, FieldsOf(ast, 0, name))]
    case Refinement(identifier, from) =>
      if identifier == Some("Int") then [] else NestedOf(from, fieldName, collectionName)
    case Transformation(identifier, from) =>
      if identifier == Some("DateTimeUtc") || identifier == Some("BigInt") then []
      else NestedOf(from, fieldName, collectionName)
    case Union(types) => NestedOf(types[FirstDefined(types)], fieldName, collectionName)
    case Literal => []
    case TupleType(rest) => if rest == [] then [] else NestedOf(rest[0], fieldName, collectionName)
  }

  ghost function NestedIn(literal: Ast, i: nat, collectionName: string): seq<NestedType>
    requires literal.TypeLiteral? && Supported(literal) && i <= |literal.properties|
    decreases literal, 0, |literal.properties| - i
  {
    if i == |literal.properties| then []
    else
      var Property(key, _, ast) := literal.properties[i];
      NestedOf(ast, key.name, collectionName) + NestedIn(literal, i + 1, collectionName)
  }

  ghost predicate DeterminedRight(r: Result<Typed, WalkError>, ast: Ast, f: string, c: string, nested: seq<NestedType>) {
    if Supported(ast) then r == Ok(Typed(TypeText(ast, f, c), nested + NestedOf(ast, f, c))) else r.Err?
  }

  /** The properties from `i` on can all be walked. */
  ghost predicate SupportedFrom(literal: Ast, i: nat)
    requires literal.TypeLiteral?
  {
    forall j :: i <= j < |literal.properties| ==> literal.properties[j].key.Text? && Supported(literal.properties[j].ast)
  }

  /** What the walk determines is the type and the nested types of the part itself; it fails exactly on unsupported parts. */
  lemma {:induction false} DetermineIs(ast: Ast, fieldName: string, collectionName: string, nested: seq<NestedType>)
    ensures DeterminedRight(DetermineType(ast, fieldName, collectionName, nested), ast, fieldName, collectionName, nested)
    decreases ast, 0
  {
    match ast
    case Node(tag) => assert nested + [] == nested;
    case TypeLiteral(properties, _) =>
      if properties == [] {
        assert nested + [] == nested;
      } else {
        LiteralIs(ast, fieldName, collectionName, nested);
      }
    case Refinement(identifier, from) =>
      assert nested + [] == nested;
      DetermineIs(from, fieldName, collectionName, nested);
    case Transformation(identifier, from) =>
      assert nested + [] == nested;
      DetermineIs(from, fieldName, collectionName, nested);
    case Union(types) =>
      if FirstDefined(types) < |types| {
        DetermineIs(types[FirstDefined(types)], fieldName, collectionName, nested);
      }
    case Literal => assert nested + [] == nested;
    case TupleType(rest) =>
      assert nested + [] == nested;
      if rest != [] { DetermineIs(rest[0], fieldName, collectionName, nested); }
  }

  lemma {:induction false} LiteralIs(ast: Ast, fieldName: string, collectionName: string, nested: seq<NestedType>)
    requires ast.TypeLiteral? && ast.properties != []
    ensures DeterminedRight(DetermineType(ast, fieldName, collectionName, nested), ast, fieldName, collectionName, nested)
    decreases ast, 0, |ast.properties| + 1
  {
    var name := NestedTypeName(collectionName, fieldName);
    WalkIs(ast, 0, name, nested);
    assert SupportedFrom(ast, 0) <==> Supported(ast);
    if Supported(ast) {
      Associate(nested, NestedIn(ast, 0, name), [NestedType(name, FieldsOf(ast, 0, name))]);
    }
  }

  lemma {:induction false} WalkIs(literal: Ast, i: nat, collectionName: string, nested: seq<NestedType>)
    requires literal.TypeLiteral? && i <= |literal.properties|
    ensures WalkProperties(literal, i, collectionName, nested).Ok? <==> SupportedFrom(literal, i)
    ensures Supported(literal) ==>
              WalkProperties(literal, i, collectionName, nested)
              == Ok(Walked(FieldsOf(literal, i, collectionName), nested + NestedIn(literal, i, collectionName)))
    decreases literal, 0, |literal.properties| - i
  {
    if i == |literal.properties| {
      assert nested + [] == nested;
    } else {
      var Property(key, optional, ast) := literal.properties[i];
      if key.Text? {
        DetermineIs(ast, key.name, collectionName, nested);
        if Supported(ast) {
          var found := nested + NestedOf(ast, key.name, collectionName);
          WalkIs(literal, i + 1, collectionName, found);
          if Supported(literal) {
            Associate(nested, NestedOf(ast, key.name, collectionName), NestedIn(literal, i + 1, collectionName));
          }
        }
      }
    }
  }

  /** A collection is walked exactly if it is a struct of supported properties, and gives its fields and nested types. */
  lemma CollectionIs(ast: Ast, collectionName: string)
    ensures WalkCollectionSchema(ast, collectionName).Ok? <==> ast.TypeLiteral? && Supported(ast)
    ensures ast.TypeLiteral? && Supported(ast) ==>
              WalkCollectionSchema(ast, collectionName)
              == Ok(Walked(FieldsOf(ast, 0, collectionName), NestedIn(ast, 0, collectionName)))
  {
    if ast.TypeLiteral? {
      WalkIs(ast, 0, collectionName, []);
      assert SupportedFrom(ast, 0) <==> Supported(ast);
      if Supported(ast) { assert [] + NestedIn(ast, 0, collectionName) == NestedIn(ast, 0, collectionName); }
    }
  }

  // ----- What the schema says of a collection -----

  /** A field as it is printed: required unless its property is optional. */
  ghost function PrintedField(property: Property, collectionName: string): OutField
    requires property.key.Text? && Supported(property.ast)
  {
    OutField(property.key.name,
             TypeText(property.ast, property.key.name, collectionName) + if property.optional then "" else "!")
  }

  /** The fields of a collection's own type: its properties, and whether it is deleted. */
  ghost predicate ShowsProperties(fields: seq<OutField>, c: Collection)
    requires c.ast.TypeLiteral? && Supported(c.ast)
  {
    && |fields| == |c.ast.properties| + 1
    && (forall j :: 0 <= j < |c.ast.properties| ==> fields[j] == PrintedField(c.ast.properties[j], c.name))
    && fields[|c.ast.properties|] == OutField("deleted", "Boolean!")
  }

  ghost predicate HasObject(types: seq<Definition>, name: string, fields: seq<OutField>) {
    Definition(Object, name, fields) in types
  }

  /** Every collection has an object type with its properties, and a type for pulling its documents in bulk. */
  lemma CollectionInSchema(collections: seq<Collection>, i: nat) returns (fields: seq<OutField>)
    requires GraphQLSchema(collections).Ok? && i < |collections|
    ensures collections[i].ast.TypeLiteral? && Supported(collections[i].ast) && ShowsProperties(fields, collections[i])
    ensures var types, name := GraphQLSchema(collections).value.types, collections[i].name;
            && HasObject(types, name, fields)
            && HasObject(types, name + "PullBulk",
                         [OutField("documents", "[" + name + "!]!"), OutField("checkpoint", "BulkCheckpoint")])
  {
    var Collection(name, ast) := collections[i];
    Holds(collections, i);
    CollectionIs(ast, name);
    var walked := WalkCollectionSchema(ast, name).value;
    fields := OutputFields(walked.fields) + [DELETED];
    MainIsDefined(name, walked);
  }

  lemma MainIsDefined(name: string, walked: Walked)
    ensures MainDefinition(name, walked.fields) in CollectionDefinitions(name, walked)
    ensures PullBulk(name) in CollectionDefinitions(name, walked)
  {
    var parts := CollectionDefinitions(name, walked);
    var from := |NestedDefinitions(walked.nested, Names(walked.nested))|;
    assert parts[from] == MainDefinition(name, walked.fields) && parts[from + 1] == PullBulk(name);
  }

  /** The texts of a collection's operations; only executions can be asked for by time. */
  lemma OperationsInSchema(collections: seq<Collection>, i: nat)
    requires GraphQLSchema(collections).Ok? && i < |collections|
    ensures var s, name := GraphQLSchema(collections).value, collections[i].name;
            && |s.queries| == |s.mutations| == |s.subscriptions| == |collections|
            && s.queries[i].name == "pull" + name && s.queries[i].typ == name + "PullBulk!"
            && s.mutations[i].name == "push" + name && s.mutations[i].typ == "[" + name + "!]!"
            && s.mutations[i].args == [OutField("writeRows", "[" + name + "InputPushRow!]")]
            && s.subscriptions[i] == Operation("stream" + name, [], name + "PullBulk!")
            && OutField("checkpoint", "PullCheckpoint") in s.queries[i].args && OutField("limit", "Int!") in s.queries[i].args
            && (OutField("historySince", "Float") in s.queries[i].args <==> name == "Execution")
            && (OutField("includeRunning", "Boolean") in s.queries[i].args <==> name == "Execution")
  {
    var args := GraphQLSchema(collections).value.queries[i].args;
    assert args[0] in args && args[1] in args;
    if collections[i].name == "Execution" {
      assert args[2] in args && args[3] in args;
    } else {
      assert |"historySince"| != |"checkpoint"| && |"historySince"| != |"limit"|;
      assert |"includeRunning"| != |"checkpoint"| && |"includeRunning"| != |"limit"|;
    }
  }
}

/**
 * The definitions and operations of the generated GraphQL schema (cli/generate-rxdb/src/generator.ts:20-322).
 *
 * A definition is its keyword, its name and its fields with their printed types; an operation has arguments too.
 */
module SchemaGenerator {
  import opened Wrappers
  import opened Seqs
  import opened InputTypes
  import opened SchemaWalker

  datatype Keyword = Object | Input

  datatype OutField = OutField(name: string, typ: string)

  datatype Definition = Definition(keyword: Keyword, name: string, fields: seq<OutField>)

  datatype Operation = Operation(name: string, args: seq<OutField>, typ: string)

  datatype Collection = Collection(name: string, ast: Ast)

  datatype Schema = Schema(types: seq<Definition>, queries: seq<Operation>, mutations: seq<Operation>,
                           subscriptions: seq<Operation>)

  const DELETED := OutField("deleted", "Boolean!")

  function OutputFields(fields: seq<Field>): (out: seq<OutField>)
    ensures |out| == |fields|
    ensures forall i :: 0 <= i < |fields| ==>
              out[i].name == fields[i].name && out[i].typ == fields[i].typ + Bang(!fields[i].nullable)
  {
    if fields == [] then []
    else [OutField(fields[0].name, fields[0].typ + Bang(!fields[0].nullable))] + OutputFields(fields[1..])
  }

  function InputFields(fields: seq<Field>, nested: seq<string>): (out: seq<OutField>)
    ensures |out| == |fields|
    ensures forall i :: 0 <= i < |fields| ==>
              out[i].name == fields[i].name
              && out[i].typ == GetInputTypeName(fields[i].typ, nested) + Bang(!fields[i].nullable)
  {
    if fields == [] then []
    else [OutField(fields[0].name, GetInputTypeName(fields[0].typ, nested) + Bang(!fields[0].nullable))]
         + InputFields(fields[1..], nested)
  }

  function NestedDefinitions(nested: seq<NestedType>, all: seq<string>): seq<Definition> {
    if nested == [] then []
    else [Definition(Object, nested[0].name, OutputFields(nested[0].fields)),
          Definition(Input, nested[0].name + "Input", InputFields(nested[0].fields, all))]
         + NestedDefinitions(nested[1..], all)
  }

  function MainDefinition(name: string, fields: seq<Field>): Definition {
    Definition(Object, name, OutputFields(fields) + [DELETED])
  }

  function PullBulk(name: string): Definition {
    Definition(Object, name + "PullBulk",
      [OutField("documents", "[" + name + "!]!"), OutField("checkpoint", "BulkCheckpoint")])
  }

  function PushRow(row: string): Definition {
    Definition(Input, row, [OutField("assumedMasterState", row + "T0AssumedMasterStateT0"),
                            OutField("newDocumentState", row + "T0NewDocumentStateT0!")])
  }

  /** The three input types of a push. */
  function PushDefinitions(name: string, fields: seq<Field>, nested: seq<string>): seq<Definition> {
    var row := name + "InputPushRow";
    var inputs := InputFields(fields, nested) + [DELETED];
    [Definition(Input, row + "T0AssumedMasterStateT0", inputs),
     Definition(Input, row + "T0NewDocumentStateT0", inputs),
     PushRow(row)]
  }

  function CollectionDefinitions(name: string, walked: Walked): seq<Definition> {
    NestedDefinitions(walked.nested, Names(walked.nested))
    + [MainDefinition(name, walked.fields), PullBulk(name)]
    + PushDefinitions(name, walked.fields, Names(walked.nested))
  }

  function Definitions(collections: seq<Collection>): Result<seq<Definition>, WalkError> {
    if collections == [] then Ok([])
    else
      var Collection(name, ast) := collections[0];
      match WalkCollectionSchema(ast, name)
      case Err(e) => Err(e)
      case Ok(walked) =>
        match Definitions(collections[1..])
        case Err(e) => Err(e)
        case Ok(rest) => Ok(CollectionDefinitions(name, walked) + rest)
  }

  function QueryField(name: string): Operation {
    Operation("pull" + name,
      [OutField("checkpoint", "PullCheckpoint"), OutField("limit", "Int!")]
      + (if name == "Execution" then [OutField("includeRunning", "Boolean"), OutField("historySince", "Float")] else []),
      name + "PullBulk!")
  }

  function MutationField(name: string): Operation {
    Operation("push" + name, [OutField("writeRows", "[" + name + "InputPushRow!]")], "[" + name + "!]!")
  }

  function SubscriptionField(name: string): Operation {
    Operation("stream" + name, [], name + "PullBulk!")
  }

  function GraphQLSchema(collections: seq<Collection>): Result<Schema, WalkError> {
    match Definitions(collections)
    case Err(e) => Err(e)
    case Ok(types) =>
      Ok(Schema(types,
        seq(|collections|, i requires 0 <= i < |collections| => QueryField(collections[i].name)),
        seq(|collections|, i requires 0 <= i < |collections| => MutationField(collections[i].name)),
        seq(|collections|, i requires 0 <= i < |collections| => SubscriptionField(collections[i].name))))
  }

  // ----- The generator -----

  lemma NestedStep(nested: seq<NestedType>, i: nat, all: seq<string>)
    requires i < |nested|
    ensures NestedDefinitions(nested[i..], all)
         == [Definition(Object, nested[i].name, OutputFields(nested[i].fields)),
             Definition(Input, nested[i].name + "Input", InputFields(nested[i].fields, all))]
            + NestedDefinitions(nested[i + 1..], all)
  {
    assert nested[i..][1..] == nested[i + 1..];
  }

  method GenerateNested(nested: seq<NestedType>, before: seq<Definition>) returns (parts: seq<Definition>)
    ensures parts == before + NestedDefinitions(nested, Names(nested))
  {
    parts := before;
    var all := Names(nested);
    ghost var total := before + NestedDefinitions(nested, all);
    assert nested[0..] == nested;
    for i := 0 to |nested|
      invariant parts + NestedDefinitions(nested[i..], all) == total
    {
      var nestedType := nested[i];
      NestedStep(nested, i, all);
      var output := Definition(Object, nestedType.name, OutputFields(nestedType.fields));
      var input := Definition(Input, nestedType.name + "Input", InputFields(nestedType.fields, all));
      Associate(parts, [output, input], NestedDefinitions(nested[i + 1..], all));
      Associate(parts, [output], [input]);
      parts := parts + [output];
      parts := parts + [input];
    }
  }

  function After(before: seq<Definition>, r: Result<seq<Definition>, WalkError>): Result<seq<Definition>, WalkError> {
    match r
    case Ok(rest) => Ok(before + rest)
    case Err(e) => Err(e)
  }

  lemma AfterFirst(before: seq<Definition>, collections: seq<Collection>)
    requires collections != [] && WalkCollectionSchema(collections[0].ast, collections[0].name).Ok?
    ensures var walked := WalkCollectionSchema(collections[0].ast, collections[0].name).value;
            After(before, Definitions(collections))
            == After(before + CollectionDefinitions(collections[0].name, walked), Definitions(collections[1..]))
  {
    var Collection(name, ast) := collections[0];
    var definitions := CollectionDefinitions(name, WalkCollectionSchema(ast, name).value);
    if Definitions(collections[1..]).Ok? {
      Associate(before, definitions, Definitions(collections[1..]).value);
    }
  }

  method GenerateCollection(name: string, walked: Walked, before: seq<Definition>) returns (parts: seq<Definition>)
    ensures parts == before + CollectionDefinitions(name, walked)
  {
    parts := GenerateNested(walked.nested, before);
    parts := parts + [MainDefinition(name, walked.fields)];
    parts := parts + [PullBulk(name)];
    parts := parts + PushDefinitions(name, walked.fields, Names(walked.nested));
  }

  ghost predicate Pushed(collections: seq<Collection>, s: Schema, i: nat) {
    && |s.queries| == |s.mutations| == |s.subscriptions| == i <= |collections|
    && forall k :: 0 <= k < i ==>
         s.queries[k] == QueryField(collections[k].name)
         && s.mutations[k] == MutationField(collections[k].name)
         && s.subscriptions[k] == SubscriptionField(collections[k].name)
  }

  lemma PushedAll(collections: seq<Collection>, s: Schema)
    requires Pushed(collections, s, |collections|) && Definitions(collections) == Ok(s.types)
    ensures GraphQLSchema(collections) == Ok(s)
  {
    var all := GraphQLSchema(collections).value;
    assert all.queries == s.queries && all.mutations == s.mutations && all.subscriptions == s.subscriptions;
  }

  method PushOperations(ghost collections: seq<Collection>, ghost i: nat, name: string, s: Schema) returns (r: Schema)
    requires Pushed(collections, s, i) && i < |collections| && collections[i].name == name
    ensures Pushed(collections, r, i + 1) && r.types == s.types
  {
    r := s.(queries := s.queries + [QueryField(name)], mutations := s.mutations + [MutationField(name)],
            subscriptions := s.subscriptions + [SubscriptionField(name)]);
  }

  method GenerateGraphQL(collections: seq<Collection>) returns (r: Result<Schema, WalkError>)
    ensures r == GraphQLSchema(collections)
  {
    var schema := Schema([], [], [], []);
    ghost var all := Definitions(collections);
    assert collections[0..] == collections && (all.Ok? ==> schema.types + all.value == all.value);
    for i := 0 to |collections|
      invariant After(schema.types, Definitions(collections[i..])) == all
      invariant Pushed(collections, schema, i)
    {
      assert collections[i..][1..] == collections[i + 1..];
      var Collection(name, ast) := collections[i];
      var walked := WalkCollectionSchema(ast, name);
      if walked.Err? {
        return Err(walked.error);
      }
      AfterFirst(schema.types, collections[i..]);
      var types := GenerateCollection(name, walked.value, schema.types);
      schema := PushOperations(collections, i, name, schema);
      schema := schema.(types := types);
    }
    assert collections[|collections|..] == [] && schema.types + [] == schema.types;
    PushedAll(collections, schema);
    r := Ok(schema);
  }

  // ----- Every reference resolves to a definition of the same keyword -----

  ghost predicate Defines(parts: seq<Definition>, keyword: Keyword, name: string) {
    exists d :: d in parts && d.keyword == keyword && d.name == name
  }

  /** The base types that collections and operations refer to; they are part of the fixed text of the schema. */
  predicate IsBaseType(name: string, keyword: Keyword) {
    match keyword
    case Object => name == "BulkCheckpoint"
    case Input => name == "PullCheckpoint"
  }

  ghost predicate Found(typ: string, t: TypeRef, outer: bool, parts: seq<Definition>, keyword: Keyword) {
    && typ == Print(t) + Bang(outer) && IsName(Base(t))
    && (IsScalar(Base(t)) || IsBaseType(Base(t), keyword) || Defines(parts, keyword, Base(t)))
  }

  /** A printed type, with its bang, is a reference to a scalar, to a base type, or to a definition of the kind. */
  ghost predicate Closed(typ: string, parts: seq<Definition>, keyword: Keyword) {
    exists t, outer :: Found(typ, t, outer, parts, keyword)
  }

  ghost predicate DefinitionClosed(d: Definition, parts: seq<Definition>) {
    forall i :: 0 <= i < |d.fields| ==> Closed(d.fields[i].typ, parts, d.keyword)
  }

  lemma {:induction false} NestedDefined(nested: seq<NestedType>, all: seq<string>, name: string)
    requires name in Names(nested)
    ensures Defines(NestedDefinitions(nested, all), Object, name)
    ensures Defines(NestedDefinitions(nested, all), Input, name + "Input")
  {
    var parts := NestedDefinitions(nested, all);
    if nested[0].name == name {
      assert parts[0] in parts && parts[1] in parts;
    } else {
      var i :| 0 <= i < |nested| && Names(nested)[i] == name;
      assert Names(nested[1..])[i - 1] == name;
      NestedDefined(nested[1..], all, name);
      assert forall d :: d in NestedDefinitions(nested[1..], all) ==> d in parts;
    }
  }

  /** An output type resolves to an object type. */
  lemma OutputCloses(typ: string, bang: bool, nested: seq<NestedType>, parts: seq<Definition>)
    requires Resolves(typ, Names(nested))
    requires forall name :: name in Names(nested) ==> Defines(parts, Object, name)
    ensures Closed(typ + Bang(bang), parts, Object)
  {
    var t :| RefersTo(typ, t, Names(nested));
    assert Found(typ + Bang(bang), t, bang, parts, Object);
  }

  /** The renamed type resolves to an input type. */
  lemma InputCloses(typ: string, bang: bool, nested: seq<NestedType>, parts: seq<Definition>)
    requires Resolves(typ, Names(nested))
    requires forall name :: name in Names(nested) ==> Defines(parts, Input, name + "Input")
    ensures Closed(GetInputTypeName(typ, Names(nested)) + Bang(bang), parts, Input)
  {
    var names := Names(nested);
    var t :| RefersTo(typ, t, names);
    RenamesInside(t, false, names);
    RenamedBase(t, names);
    assert Print(t) + "" == Print(t) && Print(Rename(t, names)) + "" == Print(Rename(t, names));
    assert Found(GetInputTypeName(typ, names) + Bang(bang), Rename(t, names), bang, parts, Input);
  }

  lemma {:induction false} RenamedBase(t: TypeRef, names: seq<string>)
    requires IsName(Base(t))
    ensures Base(Rename(t, names)) == (if Base(t) in names then Base(t) + "Input" else Base(t))
    ensures IsName(Base(Rename(t, names)))
  {
    if t.List? {
      RenamedBase(t.item, names);
    } else {
      assert forall i :: 0 <= i < |"Input"| ==> IsPlain("Input"[i]);
    }
  }

  lemma BaseCloses(name: string, bang: bool, parts: seq<Definition>, keyword: Keyword)
    requires IsName(name)
    requires IsScalar(name) || IsBaseType(name, keyword) || Defines(parts, keyword, name)
    ensures Closed(name + Bang(bang), parts, keyword)
  {
    assert Found(name + Bang(bang), Named(name), bang, parts, keyword);
  }

  lemma OutputFieldsClose(fields: seq<Field>, nested: seq<NestedType>, parts: seq<Definition>)
    requires FieldsResolve(fields, Names(nested))
    requires forall name :: name in Names(nested) ==> Defines(parts, Object, name)
    ensures forall i :: 0 <= i < |fields| ==> Closed(OutputFields(fields)[i].typ, parts, Object)
  {
    forall i | 0 <= i < |fields| ensures Closed(OutputFields(fields)[i].typ, parts, Object) {
      OutputCloses(fields[i].typ, !fields[i].nullable, nested, parts);
    }
  }

  lemma InputFieldsClose(fields: seq<Field>, nested: seq<NestedType>, parts: seq<Definition>)
    requires FieldsResolve(fields, Names(nested))
    requires forall name :: name in Names(nested) ==> Defines(parts, Input, name + "Input")
    ensures forall i :: 0 <= i < |fields| ==> Closed(InputFields(fields, Names(nested))[i].typ, parts, Input)
  {
    forall i | 0 <= i < |fields| ensures Closed(InputFields(fields, Names(nested))[i].typ, parts, Input) {
      InputCloses(fields[i].typ, !fields[i].nullable, nested, parts);
    }
  }

  ghost predicate AllDefined(nested: seq<NestedType>, parts: seq<Definition>) {
    forall name :: name in Names(nested) ==> Defines(parts, Object, name) && Defines(parts, Input, name + "Input")
  }

  ghost predicate AllClosed(definitions: seq<Definition>, parts: seq<Definition>) {
    forall i :: 0 <= i < |definitions| ==> DefinitionClosed(definitions[i], parts)
  }

  lemma {:induction false} NestedClosed(nested: seq<NestedType>, all: seq<NestedType>, parts: seq<Definition>)
    requires forall k :: 0 <= k < |nested| ==> FieldsResolve(nested[k].fields, Names(all))
    requires AllDefined(all, parts)
    ensures AllClosed(NestedDefinitions(nested, Names(all)), parts)
  {
    if nested != [] {
      OutputFieldsClose(nested[0].fields, all, parts);
      InputFieldsClose(nested[0].fields, all, parts);
      NestedClosed(nested[1..], all, parts);
    }
  }

  lemma NestedFieldsResolve(nested: seq<NestedType>)
    requires Ordered(nested)
    ensures forall k :: 0 <= k < |nested| ==> FieldsResolve(nested[k].fields, Names(nested))
  {
    forall k, i | 0 <= k < |nested| && 0 <= i < |nested[k].fields|
      ensures Resolves(nested[k].fields[i].typ, Names(nested))
    {
      assert OrderedAt(nested, k);
      ResolvesMore(nested[k].fields[i].typ, nested[..k], nested);
    }
  }

  lemma PullBulkClosed(name: string, parts: seq<Definition>)
    requires IsName(name) && Defines(parts, Object, name)
    ensures DefinitionClosed(PullBulk(name), parts)
  {
    var documents := "[" + name + "!]!";
    assert documents == Print(List(Named(name), true)) + Bang(true);
    assert Found(documents, List(Named(name), true), true, parts, Object);
    BaseCloses("BulkCheckpoint", false, parts, Object);
    assert "BulkCheckpoint" + "" == "BulkCheckpoint";
  }

  lemma DeletedCloses(parts: seq<Definition>, keyword: Keyword)
    ensures Closed(DELETED.typ, parts, keyword)
  {
    BaseCloses("Boolean", true, parts, keyword);
    assert "Boolean" + "!" == "Boolean!";
  }

  lemma NameAppend(name: string, suffix: string)
    requires IsName(name) && PlainText(suffix)
    ensures IsName(name + suffix)
  {}

  lemma RowClosed(row: string, parts: seq<Definition>)
    requires IsName(row) && Defines(parts, Input, row + "T0AssumedMasterStateT0") && Defines(parts, Input, row + "T0NewDocumentStateT0")
    ensures Closed(row + "T0AssumedMasterStateT0", parts, Input) && Closed(row + "T0NewDocumentStateT0!", parts, Input)
  {
    NameAppend(row, "T0AssumedMasterStateT0");
    NameAppend(row, "T0NewDocumentStateT0");
    StateCloses(row + "T0AssumedMasterStateT0", false, parts);
    StateCloses(row + "T0NewDocumentStateT0", true, parts);
    assert (row + "T0NewDocumentStateT0") + "!" == row + "T0NewDocumentStateT0!";
  }

  lemma StateCloses(name: string, bang: bool, parts: seq<Definition>)
    requires IsName(name) && Defines(parts, Input, name)
    ensures Closed(if bang then name + "!" else name, parts, Input)
  {
    BaseCloses(name, bang, parts, Input);
    assert name + "" == name;
  }

  lemma WithDeletedClosed(keyword: Keyword, name: string, fields: seq<OutField>, parts: seq<Definition>)
    requires forall i :: 0 <= i < |fields| ==> Closed(fields[i].typ, parts, keyword)
    ensures DefinitionClosed(Definition(keyword, name, fields + [DELETED]), parts)
  {
    DeletedCloses(parts, keyword);
  }

  lemma PushClosed(name: string, walked: Walked, parts: seq<Definition>)
    requires IsName(name) && FieldsResolve(walked.fields, Names(walked.nested)) && AllDefined(walked.nested, parts)
    requires forall d :: d in PushDefinitions(name, walked.fields, Names(walked.nested)) ==> d in parts
    ensures AllClosed(PushDefinitions(name, walked.fields, Names(walked.nested)), parts)
  {
    var push := PushDefinitions(name, walked.fields, Names(walked.nested));
    StateClosed(push[0].name, walked, parts);
    StateClosed(push[1].name, walked, parts);
    RowName(name);
    assert push[0] in parts && push[1] in parts;
    PushRowClosed(push, name + "InputPushRow", parts);
  }

  lemma StateClosed(state: string, walked: Walked, parts: seq<Definition>)
    requires FieldsResolve(walked.fields, Names(walked.nested)) && AllDefined(walked.nested, parts)
    ensures DefinitionClosed(Definition(Input, state, InputFields(walked.fields, Names(walked.nested)) + [DELETED]), parts)
  {
    InputFieldsClose(walked.fields, walked.nested, parts);
    WithDeletedClosed(Input, state, InputFields(walked.fields, Names(walked.nested)), parts);
  }

  lemma RowName(name: string)
    requires IsName(name)
    ensures IsName(name + "InputPushRow")
  {
    NameAppend(name, "InputPushRow");
  }

  lemma PushRowClosed(push: seq<Definition>, row: string, parts: seq<Definition>)
    requires |push| == 3 && IsName(row) && push[0] in parts && push[1] in parts
    requires push[0].keyword.Input? && push[0].name == row + "T0AssumedMasterStateT0"
    requires push[1].keyword.Input? && push[1].name == row + "T0NewDocumentStateT0"
    requires push[2] == PushRow(row)
    requires DefinitionClosed(push[0], parts) && DefinitionClosed(push[1], parts)
    ensures AllClosed(push, parts)
  {
    RowClosed(row, parts);
    assert DefinitionClosed(push[2], parts);
  }

  /** Each definition of a collection refers to what is defined. */
  lemma CollectionClosed(collection: Collection, parts: seq<Definition>)
    requires PlainKeys(collection.ast) && IsName(collection.name)
    requires var walked := WalkCollectionSchema(collection.ast, collection.name);
             walked.Ok? && forall d :: d in CollectionDefinitions(collection.name, walked.value) ==> d in parts
    ensures AllClosed(CollectionDefinitions(collection.name,
                        WalkCollectionSchema(collection.ast, collection.name).value), parts)
  {
    var walked := WalkCollectionSchema(collection.ast, collection.name).value;
    CollectionResolves(collection.ast, collection.name);
    WalkedClosed(collection.name, walked, parts);
  }

  lemma AllClosedAppend(a: seq<Definition>, b: seq<Definition>, parts: seq<Definition>)
    requires AllClosed(a, parts) && AllClosed(b, parts)
    ensures AllClosed(a + b, parts)
  {}

  lemma MainClosed(name: string, walked: Walked, parts: seq<Definition>)
    requires IsName(name) && FieldsResolve(walked.fields, Names(walked.nested)) && AllDefined(walked.nested, parts)
    requires MainDefinition(name, walked.fields) in parts
    ensures AllClosed([MainDefinition(name, walked.fields), PullBulk(name)], parts)
  {
    OutputFieldsClose(walked.fields, walked.nested, parts);
    WithDeletedClosed(Object, name, OutputFields(walked.fields), parts);
    PullBulkClosed(name, parts);
  }

  lemma WalkedClosed(name: string, walked: Walked, parts: seq<Definition>)
    requires IsName(name) && Ordered(walked.nested) && FieldsResolve(walked.fields, Names(walked.nested))
    requires forall d :: d in CollectionDefinitions(name, walked) ==> d in parts
    ensures AllClosed(CollectionDefinitions(name, walked), parts)
  {
    var names := Names(walked.nested);
    var nested, push := NestedDefinitions(walked.nested, names), PushDefinitions(name, walked.fields, names);
    var main := [MainDefinition(name, walked.fields), PullBulk(name)];
    assert CollectionDefinitions(name, walked) == nested + main + push;
    assert forall d :: d in nested || d in main || d in push ==> d in nested + main + push;
    assert main[0] in main;
    NestedAllDefined(walked.nested, parts);
    NestedFieldsResolve(walked.nested);
    NestedClosed(walked.nested, walked.nested, parts);
    MainClosed(name, walked, parts);
    PushClosed(name, walked, parts);
    AllClosedAppend(nested, main, parts);
    AllClosedAppend(nested + main, push, parts);
  }

  lemma NestedAllDefined(nested: seq<NestedType>, parts: seq<Definition>)
    requires forall d :: d in NestedDefinitions(nested, Names(nested)) ==> d in parts
    ensures AllDefined(nested, parts)
  {
    forall n | n in Names(nested) ensures Defines(parts, Object, n) && Defines(parts, Input, n + "Input") {
      NestedDefined(nested, Names(nested), n);
    }
  }

  ghost predicate PlainCollections(collections: seq<Collection>) {
    forall i :: 0 <= i < |collections| ==> IsName(collections[i].name) && PlainKeys(collections[i].ast)
  }

  lemma {:induction false} DefinitionsClosed(collections: seq<Collection>, parts: seq<Definition>)
    requires PlainCollections(collections) && Definitions(collections).Ok?
    requires forall d :: d in Definitions(collections).value ==> d in parts
    ensures AllClosed(Definitions(collections).value, parts)
  {
    if collections != [] {
      var Collection(name, ast) := collections[0];
      var first := CollectionDefinitions(name, WalkCollectionSchema(ast, name).value);
      var rest := Definitions(collections[1..]).value;
      assert Definitions(collections).value == first + rest;
      CollectionClosed(collections[0], parts);
      DefinitionsClosed(collections[1..], parts);
    }
  }

  // ----- Operations -----

  ghost predicate OperationClosed(o: Operation, parts: seq<Definition>) {
    && Closed(o.typ, parts, Object)
    && forall i :: 0 <= i < |o.args| ==> Closed(o.args[i].typ, parts, Input)
  }

  ghost predicate OperationsClosed(operations: seq<Operation>, parts: seq<Definition>) {
    forall k :: 0 <= k < |operations| ==> OperationClosed(operations[k], parts)
  }

  lemma PlainClosed(name: string, parts: seq<Definition>, keyword: Keyword)
    requires IsScalar(name) || IsBaseType(name, keyword)
    ensures Closed(name, parts, keyword) && Closed(name + "!", parts, keyword)
  {
    if IsScalar(name) { ScalarIsName(name); }
    BaseCloses(name, false, parts, keyword);
    BaseCloses(name, true, parts, keyword);
    assert name + "" == name;
  }

  lemma ArgumentsClose(parts: seq<Definition>)
    ensures Closed("PullCheckpoint", parts, Input) && Closed("Int!", parts, Input)
    ensures Closed("Boolean", parts, Input) && Closed("Float", parts, Input)
  {
    PlainClosed("PullCheckpoint", parts, Input);
    PlainClosed("Int", parts, Input);
    PlainClosed("Boolean", parts, Input);
    PlainClosed("Float", parts, Input);
    assert "Int" + "!" == "Int!";
  }

  lemma ListCloses(name: string, bang: bool, parts: seq<Definition>, keyword: Keyword)
    requires IsName(name) && Defines(parts, keyword, name)
    ensures Closed("[" + name + "!]" + Bang(bang), parts, keyword)
  {
    assert "[" + name + "!]" == Print(List(Named(name), true));
    assert Found("[" + name + "!]" + Bang(bang), List(Named(name), true), bang, parts, keyword);
  }

  lemma BulkCloses(name: string, parts: seq<Definition>)
    requires IsName(name) && Defines(parts, Object, name + "PullBulk")
    ensures Closed(name + "PullBulk!", parts, Object)
  {
    NameAppend(name, "PullBulk");
    BaseCloses(name + "PullBulk", true, parts, Object);
    assert (name + "PullBulk") + "!" == name + "PullBulk!";
  }

  lemma PullCloses(name: string, parts: seq<Definition>)
    requires IsName(name) && Defines(parts, Object, name + "PullBulk")
    ensures OperationClosed(QueryField(name), parts) && OperationClosed(SubscriptionField(name), parts)
  {
    BulkCloses(name, parts);
    ArgumentsClose(parts);
  }

  lemma PushCloses(name: string, parts: seq<Definition>)
    requires IsName(name) && Defines(parts, Object, name) && Defines(parts, Input, name + "InputPushRow")
    ensures OperationClosed(MutationField(name), parts)
  {
    RowName(name);
    ListCloses(name, true, parts, Object);
    assert "[" + name + "!]" + "!" == "[" + name + "!]!";
    RowsClose(name, name + "InputPushRow", parts);
  }

  lemma RowsClose(name: string, row: string, parts: seq<Definition>)
    requires row == name + "InputPushRow" && IsName(row) && Defines(parts, Input, row)
    ensures Closed("[" + name + "InputPushRow!]", parts, Input)
  {
    ListCloses(row, false, parts, Input);
    assert "[" + row + "!]" + "" == "[" + name + "InputPushRow!]";
  }

  lemma {:induction false} Holds(collections: seq<Collection>, i: nat)
    requires Definitions(collections).Ok? && i < |collections|
    ensures WalkCollectionSchema(collections[i].ast, collections[i].name).Ok?
    ensures var walked := WalkCollectionSchema(collections[i].ast, collections[i].name).value;
            forall d :: d in CollectionDefinitions(collections[i].name, walked) ==> d in Definitions(collections).value
  {
    if i > 0 {
      Holds(collections[1..], i - 1);
    }
  }

  lemma CollectionDefines(name: string, walked: Walked, parts: seq<Definition>)
    requires forall d :: d in CollectionDefinitions(name, walked) ==> d in parts
    ensures Defines(parts, Object, name) && Defines(parts, Object, name + "PullBulk")
    ensures Defines(parts, Input, name + "InputPushRow")
  {
    var nested, push := NestedDefinitions(walked.nested, Names(walked.nested)),
                        PushDefinitions(name, walked.fields, Names(walked.nested));
    var main := [MainDefinition(name, walked.fields), PullBulk(name)];
    assert CollectionDefinitions(name, walked) == nested + main + push;
    assert main[0] in main && main[1] in main && push[2] in push;
    assert forall d :: d in main || d in push ==> d in nested + main + push;
  }

  /**
   * In every generated schema, every field of every type, every operation and every argument refers to
   * something that is defined, of the right kind.
   */
  lemma ReferencesResolve(collections: seq<Collection>)
    requires PlainCollections(collections)
    ensures match GraphQLSchema(collections)
            case Ok(s) =>
              AllClosed(s.types, s.types) && OperationsClosed(s.queries, s.types)
              && OperationsClosed(s.mutations, s.types) && OperationsClosed(s.subscriptions, s.types)
            case Err(_) => true
  {
    if GraphQLSchema(collections).Ok? {
      var s := GraphQLSchema(collections).value;
      DefinitionsClosed(collections, s.types);
      forall k | 0 <= k < |collections|
        ensures OperationClosed(s.queries[k], s.types) && OperationClosed(s.mutations[k], s.types)
             && OperationClosed(s.subscriptions[k], s.types)
      {
        Holds(collections, k);
        CollectionDefines(collections[k].name, WalkCollectionSchema(collections[k].ast, collections[k].name).value, s.types);
        PullCloses(collections[k].name, s.types);
        PushCloses(collections[k].name, s.types);
      }
    }
  }

  /** An input field mirrors an output field: same name, same list structure, same bangs, renamed base. */
  ghost predicate Mirrors(output: OutField, input: OutField, t: TypeRef, bang: bool, names: seq<string>) {
    && input.name == output.name && IsName(Base(t))
    && output.typ == Print(t) + Bang(bang) && input.typ == Print(Rename(t, names)) + Bang(bang)
  }

  /** The input type of a collection or nested type has the fields of its object type, renamed. */
  lemma InputMirrorsObject(fields: seq<Field>, nested: seq<NestedType>, i: nat) returns (t: TypeRef)
    requires FieldsResolve(fields, Names(nested)) && i < |fields|
    ensures Mirrors(OutputFields(fields)[i], InputFields(fields, Names(nested))[i], t, !fields[i].nullable, Names(nested))
  {
    t := RenamedPrint(fields[i].typ, nested);
  }

  lemma RenamedPrint(typ: string, nested: seq<NestedType>) returns (t: TypeRef)
    requires Resolves(typ, Names(nested))
    ensures IsName(Base(t)) && typ == Print(t)
    ensures GetInputTypeName(typ, Names(nested)) == Print(Rename(t, Names(nested)))
  {
    t :| RefersTo(typ, t, Names(nested));
    RenamesInside(t, false, Names(nested));
    assert Print(t) + "" == Print(t);
    assert Print(Rename(t, Names(nested))) + "" == Print(Rename(t, Names(nested)));
  }
}

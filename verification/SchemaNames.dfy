/**
 * When the generated schema gives every name one meaning (cli/generate-rxdb/src/generator.ts:20-322,
 * cli/generate-rxdb/src/walker.ts:208-288).
 *
 * The names of the definitions are a function of the collection and property names alone. Every one of
 * them is referred to, so the references are unambiguous exactly if these names are pairwise distinct.
 */
module SchemaNames {
  import opened Wrappers
  import opened Seqs
  import opened InputTypes
  import opened SchemaWalker
  import opened SchemaGenerator

  // ----- Names built from collection and property names -----

  /** The names of the nested types below a property. */
  function NestedNames(ast: Ast, fieldName: string, collectionName: string): seq<string>
    decreases ast, 0
  {
    match ast
    case Node(_) => []
    case TypeLiteral(properties, _) =>
      if properties == [] then []
      else
        var name := NestedTypeName(collectionName, fieldName);
        PropertyNames(ast, 0, name) + [name]
    case Refinement(identifier, from) =>
      if identifier == Some("Int") then [] else NestedNames(from, fieldName, collectionName)
    case Transformation(identifier, from) =>
      if identifier == Some("DateTimeUtc") || identifier == Some("BigInt") then []
      else NestedNames(from, fieldName, collectionName)
    case Union(types) =>
      var i := FirstDefined(types);
      if i == |types| then [] else NestedNames(types[i], fieldName, collectionName)
    case Literal => []
    case TupleType(rest) => if rest == [] then [] else NestedNames(rest[0], fieldName, collectionName)
  }

  function PropertyNames(literal: Ast, i: nat, collectionName: string): seq<string>
    requires literal.TypeLiteral? && i <= |literal.properties|
    decreases literal, 0, |literal.properties| - i
  {
    if i == |literal.properties| then []
    else
      var Property(key, _, ast) := literal.properties[i];
      (if key.Text? then NestedNames(ast, key.name, collectionName) else [])
      + PropertyNames(literal, i + 1, collectionName)
  }

  /** Each nested type has an object and an input type. */
  function PairNames(names: seq<string>): seq<string> {
    if names == [] then [] else [names[0], names[0] + "Input"] + PairNames(names[1..])
  }

  function MainNames(name: string): seq<string> {
    var row := name + "InputPushRow";
    [name, name + "PullBulk"] + [row + "T0AssumedMasterStateT0", row + "T0NewDocumentStateT0", row]
  }

  function NamesOf(c: Collection): seq<string> {
    PairNames(if c.ast.TypeLiteral? then PropertyNames(c.ast, 0, c.name) else []) + MainNames(c.name)
  }

  function BuiltNames(collections: seq<Collection>): seq<string> {
    if collections == [] then [] else NamesOf(collections[0]) + BuiltNames(collections[1..])
  }

  /** The built-in scalars, and the names that the fixed text of the schema defines. */
  const FIXED_NAMES: seq<string> := [
    "ID", "String", "Int", "Float", "Boolean", "DateTimeISO", "JSON", "RxDbDocument", "PullCheckpoint",
    "PullCheckpointBoundaryInput", "PullCheckpointMode", "BulkCheckpoint", "BulkCheckpointBoundary",
    "Query", "Mutation", "Subscription"]

  /** The references inside the fixed text: scalars with a bang, and three types without. */
  const FIXED_SCALARS: seq<string> := ["ID", "String", "Float", "Boolean"]
  const FIXED_TYPES: seq<string> := ["PullCheckpointMode", "PullCheckpointBoundaryInput", "BulkCheckpointBoundary"]

  // ----- References and what they resolve to -----

  function TypeNames(types: seq<Definition>): (names: seq<string>)
    ensures |names| == |types| && forall i :: 0 <= i < |types| ==> names[i] == types[i].name
  {
    seq(|types|, i requires 0 <= i < |types| => types[i].name)
  }

  /** All definitions of a schema, by name. */
  function AllNames(s: Schema): seq<string> {
    FIXED_NAMES + TypeNames(s.types)
  }

  /** The name in a printed type: what is left without brackets and bangs. */
  function BaseOf(typ: string): string {
    if typ == "" then ""
    else (if typ[0] == '[' || typ[0] == ']' || typ[0] == '!' then "" else [typ[0]]) + BaseOf(typ[1..])
  }

  ghost predicate FieldRefers(d: Definition, typ: string) {
    exists k :: 0 <= k < |d.fields| && d.fields[k].typ == typ
  }

  ghost predicate OperationRefers(o: Operation, typ: string) {
    o.typ == typ || exists k :: 0 <= k < |o.args| && o.args[k].typ == typ
  }

  /** A type printed somewhere in the schema; each collection type implements the interface `RxDbDocument`. */
  ghost predicate IsReference(s: Schema, typ: string) {
    || typ in FIXED_TYPES
    || (exists name :: name in FIXED_SCALARS && typ == name + "!")
    || (typ == "RxDbDocument" && s.queries != [])
    || (exists i :: 0 <= i < |s.types| && FieldRefers(s.types[i], typ))
    || (exists i :: 0 <= i < |s.queries| && OperationRefers(s.queries[i], typ))
    || (exists i :: 0 <= i < |s.mutations| && OperationRefers(s.mutations[i], typ))
    || (exists i :: 0 <= i < |s.subscriptions| && OperationRefers(s.subscriptions[i], typ))
  }

  ghost predicate OccursOnce(names: seq<string>, name: string) {
    exists i :: 0 <= i < |names| && names[i] == name && forall j :: 0 <= j < |names| && names[j] == name ==> j == i
  }

  ghost predicate Distinct(names: seq<string>) {
    forall i, j :: 0 <= i < j < |names| ==> names[i] != names[j]
  }

  /** Each reference is to the name of exactly one definition. */
  ghost predicate ResolvesOnce(s: Schema) {
    forall typ :: IsReference(s, typ) ==> OccursOnce(AllNames(s), BaseOf(typ))
  }

  // ----- The base of a printed type -----

  lemma {:induction false} BaseOfAppend(a: string, b: string)
    ensures BaseOf(a + b) == BaseOf(a) + BaseOf(b)
  {
    if a == "" {
      assert a + b == b;
    } else {
      assert (a + b)[1..] == a[1..] + b;
      BaseOfAppend(a[1..], b);
    }
  }

  lemma {:induction false} BaseOfPlain(s: string)
    requires PlainText(s)
    ensures BaseOf(s) == s
  {
    if s != "" {
      assert IsPlain(s[0]);
      BaseOfPlain(s[1..]);
    }
  }

  lemma BaseOfBang(typ: string, bang: bool)
    ensures BaseOf(typ + Bang(bang)) == BaseOf(typ)
  {
    BaseOfAppend(typ, Bang(bang));
    assert "!"[1..] == "";
    assert BaseOf("!") == "";
  }

  lemma BaseOfList(typ: string, bang: bool)
    ensures BaseOf("[" + typ + Bang(bang) + "]") == BaseOf(typ)
  {
    BaseOfBang(typ, bang);
    BaseOfAppend("[" + typ + Bang(bang), "]");
    assert "[" + typ + Bang(bang) == "[" + (typ + Bang(bang));
    BaseOfAppend("[", typ + Bang(bang));
    assert "["[1..] == "" && "]"[1..] == "";
    assert BaseOf("[") == "" && BaseOf("]") == "";
  }

  lemma {:induction false} BaseOfPrint(t: TypeRef)
    requires PlainText(Base(t))
    ensures BaseOf(Print(t)) == Base(t)
  {
    match t
    case Named(name) => BaseOfPlain(name);
    case List(item, bang) =>
      BaseOfPrint(item);
      BaseOfList(Print(item), bang);
  }

  // ----- The walk builds exactly these names -----

  lemma NamesAppend(a: seq<NestedType>, b: seq<NestedType>)
    ensures Names(a + b) == Names(a) + Names(b)
  {}

  lemma {:induction false} DetermineNames(ast: Ast, fieldName: string, collectionName: string, nested: seq<NestedType>)
    ensures var r := DetermineType(ast, fieldName, collectionName, nested);
            r.Ok? ==> Names(r.value.nested) == Names(nested) + NestedNames(ast, fieldName, collectionName)
    decreases ast, 0
  {
    match ast
    case Node(_) =>
    case TypeLiteral(properties, _) =>
      if properties != [] {
        LiteralNames(ast, fieldName, collectionName, nested);
      }
    case Refinement(_, from) => DetermineNames(from, fieldName, collectionName, nested);
    case Transformation(_, from) => DetermineNames(from, fieldName, collectionName, nested);
    case Union(types) =>
      if FirstDefined(types) < |types| {
        DetermineNames(types[FirstDefined(types)], fieldName, collectionName, nested);
      }
    case Literal =>
    case TupleType(rest) =>
      if rest != [] {
        DetermineNames(rest[0], fieldName, collectionName, nested);
      }
  }

  lemma {:induction false} LiteralNames(ast: Ast, fieldName: string, collectionName: string, nested: seq<NestedType>)
    requires ast.TypeLiteral? && ast.properties != []
    ensures var r := DetermineType(ast, fieldName, collectionName, nested);
            r.Ok? ==> Names(r.value.nested) == Names(nested) + NestedNames(ast, fieldName, collectionName)
    decreases ast, 0, |ast.properties| + 1
  {
    var name := NestedTypeName(collectionName, fieldName);
    WalkNames(ast, 0, name, nested);
    var r := WalkProperties(ast, 0, name, nested);
    if r.Ok? {
      NamesAppend(r.value.nested, [NestedType(name, r.value.fields)]);
      Associate(Names(nested), PropertyNames(ast, 0, name), [name]);
    }
  }

  lemma {:induction false} WalkNames(literal: Ast, i: nat, collectionName: string, nested: seq<NestedType>)
    requires literal.TypeLiteral? && i <= |literal.properties|
    ensures var r := WalkProperties(literal, i, collectionName, nested);
            r.Ok? ==> Names(r.value.nested) == Names(nested) + PropertyNames(literal, i, collectionName)
    decreases literal, 0, |literal.properties| - i
  {
    if i < |literal.properties| {
      var Property(key, _, ast) := literal.properties[i];
      if key.Text? {
        DetermineNames(ast, key.name, collectionName, nested);
        var r := DetermineType(ast, key.name, collectionName, nested);
        if r.Ok? {
          WalkNames(literal, i + 1, collectionName, r.value.nested);
          Associate(Names(nested), NestedNames(ast, key.name, collectionName),
                    PropertyNames(literal, i + 1, collectionName));
        }
      }
    }
  }

  lemma TypeNamesAppend(a: seq<Definition>, b: seq<Definition>)
    ensures TypeNames(a + b) == TypeNames(a) + TypeNames(b)
  {}

  lemma {:induction false} NestedDefinitionNames(nested: seq<NestedType>, all: seq<string>)
    ensures TypeNames(NestedDefinitions(nested, all)) == PairNames(Names(nested))
  {
    if nested != [] {
      NestedDefinitionNames(nested[1..], all);
      var first := [Definition(Object, nested[0].name, OutputFields(nested[0].fields)),
                    Definition(Input, nested[0].name + "Input", InputFields(nested[0].fields, all))];
      TypeNamesAppend(first, NestedDefinitions(nested[1..], all));
      assert TypeNames(first) == [nested[0].name, nested[0].name + "Input"];
      assert Names(nested)[1..] == Names(nested[1..]);
    }
  }

  lemma PushNames(name: string, fields: seq<Field>, nested: seq<string>)
    ensures [name, name + "PullBulk"] + TypeNames(PushDefinitions(name, fields, nested)) == MainNames(name)
  {}

  lemma CollectionDefinitionNames(name: string, walked: Walked)
    ensures TypeNames(CollectionDefinitions(name, walked)) == PairNames(Names(walked.nested)) + MainNames(name)
  {
    var nested, push := NestedDefinitions(walked.nested, Names(walked.nested)),
                        PushDefinitions(name, walked.fields, Names(walked.nested));
    var main := [MainDefinition(name, walked.fields), PullBulk(name)];
    NestedDefinitionNames(walked.nested, Names(walked.nested));
    TypeNamesAppend(nested + main, push);
    TypeNamesAppend(nested, main);
    assert TypeNames(main) == [name, name + "PullBulk"];
    PushNames(name, walked.fields, Names(walked.nested));
    Associate(TypeNames(nested), TypeNames(main), TypeNames(push));
  }

  /** The definitions of the schema have the names built from the collection and property names, in order. */
  lemma {:induction false} DefinitionsAreBuilt(collections: seq<Collection>)
    requires Definitions(collections).Ok?
    ensures TypeNames(Definitions(collections).value) == BuiltNames(collections)
  {
    if collections != [] {
      var Collection(name, ast) := collections[0];
      var walked := WalkCollectionSchema(ast, name).value;
      WalkNames(ast, 0, name, []);
      assert Names(walked.nested) == PropertyNames(ast, 0, name);
      CollectionDefinitionNames(name, walked);
      DefinitionsAreBuilt(collections[1..]);
      TypeNamesAppend(CollectionDefinitions(name, walked), Definitions(collections[1..]).value);
    }
  }

  // ----- Every nested type is referred to -----

  ghost predicate Mentions(fields: seq<Field>, name: string) {
    exists i :: 0 <= i < |fields| && BaseOf(fields[i].typ) == name
  }

  ghost predicate NestedMentions(nested: seq<NestedType>, name: string) {
    exists m :: 0 <= m < |nested| && Mentions(nested[m].fields, name)
  }

  lemma MentionsMore(nested: seq<NestedType>, found: seq<NestedType>, name: string)
    requires nested <= found && NestedMentions(nested, name)
    ensures NestedMentions(found, name)
  {
    var m :| 0 <= m < |nested| && Mentions(nested[m].fields, name);
    assert Mentions(found[m].fields, name);
  }

  lemma MentionsNext(field: Field, fields: seq<Field>, name: string)
    requires BaseOf(field.typ) == name || Mentions(fields, name)
    ensures Mentions([field] + fields, name)
  {
    var all := [field] + fields;
    if BaseOf(field.typ) == name {
      assert all[0] == field;
    } else {
      var i :| 0 <= i < |fields| && BaseOf(fields[i].typ) == name;
      assert all[i + 1] == fields[i];
    }
  }

  /** What the walk adds is referred to by the type it returns or by the fields of a nested type. */
  ghost predicate TypeMentions(r: Result<Typed, WalkError>, nested: seq<NestedType>) {
    r.Ok? ==> forall k :: |nested| <= k < |r.value.nested| ==>
                BaseOf(r.value.typ) == r.value.nested[k].name || NestedMentions(r.value.nested, r.value.nested[k].name)
  }

  ghost predicate FieldsMention(r: Result<Walked, WalkError>, nested: seq<NestedType>) {
    r.Ok? ==> forall k :: |nested| <= k < |r.value.nested| ==>
                Mentions(r.value.fields, r.value.nested[k].name)
                || NestedMentions(r.value.nested, r.value.nested[k].name)
  }

  lemma {:induction false} DetermineMentions(ast: Ast, fieldName: string, collectionName: string, nested: seq<NestedType>)
    requires PlainKeys(ast) && PlainText(fieldName) && IsName(collectionName) && Ordered(nested)
    ensures TypeMentions(DetermineType(ast, fieldName, collectionName, nested), nested)
    decreases ast, 0
  {
    match ast
    case Node(_) =>
    case TypeLiteral(properties, _) =>
      if properties != [] {
        LiteralMentions(ast, fieldName, collectionName, nested);
      }
    case Refinement(_, from) => DetermineMentions(from, fieldName, collectionName, nested);
    case Transformation(_, from) => DetermineMentions(from, fieldName, collectionName, nested);
    case Union(types) =>
      if FirstDefined(types) < |types| {
        DetermineMentions(types[FirstDefined(types)], fieldName, collectionName, nested);
      }
    case Literal =>
    case TupleType(rest) =>
      if rest != [] {
        DetermineMentions(rest[0], fieldName, collectionName, nested);
        var r := DetermineType(rest[0], fieldName, collectionName, nested);
        if r.Ok? {
          BaseOfList(r.value.typ, true);
          assert "[" + r.value.typ + "!" + "]" == "[" + r.value.typ + "!]";
        }
      }
  }

  lemma {:induction false} LiteralMentions(ast: Ast, fieldName: string, collectionName: string, nested: seq<NestedType>)
    requires ast.TypeLiteral? && ast.properties != []
    requires PlainKeys(ast) && PlainText(fieldName) && IsName(collectionName) && Ordered(nested)
    ensures TypeMentions(DetermineType(ast, fieldName, collectionName, nested), nested)
    decreases ast, 0, |ast.properties| + 1
  {
    var name := NestedTypeName(collectionName, fieldName);
    NestedNameIsName(collectionName, fieldName);
    BaseOfPlain(name);
    WalkMentions(ast, 0, name, nested);
    var r := WalkProperties(ast, 0, name, nested);
    if r.Ok? {
      var all := r.value.nested + [NestedType(name, r.value.fields)];
      assert all[|all| - 1].fields == r.value.fields;
      forall k | |nested| <= k < |all| ensures name == all[k].name || NestedMentions(all, all[k].name) {
        if k < |all| - 1 && NestedMentions(r.value.nested, all[k].name) {
          MentionsMore(r.value.nested, all, all[k].name);
        }
      }
    }
  }

  lemma {:induction false} WalkMentions(literal: Ast, i: nat, collectionName: string, nested: seq<NestedType>)
    requires literal.TypeLiteral? && i <= |literal.properties|
    requires PlainKeys(literal) && IsName(collectionName) && Ordered(nested)
    ensures FieldsMention(WalkProperties(literal, i, collectionName, nested), nested)
    decreases literal, 0, |literal.properties| - i
  {
    if i < |literal.properties| && literal.properties[i].key.Text? {
      var Property(key, optional, ast) := literal.properties[i];
      DetermineGood(ast, key.name, collectionName, nested);
      DetermineMentions(ast, key.name, collectionName, nested);
      var r := DetermineType(ast, key.name, collectionName, nested);
      if r.Ok? {
        WalkGood(literal, i + 1, collectionName, r.value.nested);
        WalkMentions(literal, i + 1, collectionName, r.value.nested);
        var rest := WalkProperties(literal, i + 1, collectionName, r.value.nested);
        if rest.Ok? {
          MentionsStep(Field(key.name, r.value.typ, optional), r.value, rest.value, nested);
        }
      }
    }
  }

  lemma MentionsStep(field: Field, first: Typed, rest: Walked, nested: seq<NestedType>)
    requires field.typ == first.typ && first.nested <= rest.nested
    requires TypeMentions(Ok(first), nested) && FieldsMention(Ok(rest), first.nested)
    ensures FieldsMention(Ok(Walked([field] + rest.fields, rest.nested)), nested)
  {
    forall k | |nested| <= k < |rest.nested|
      ensures Mentions([field] + rest.fields, rest.nested[k].name) || NestedMentions(rest.nested, rest.nested[k].name)
    {
      var name := rest.nested[k].name;
      if k < |first.nested| {
        assert first.nested[k] == rest.nested[k];
        if NestedMentions(first.nested, name) {
          MentionsMore(first.nested, rest.nested, name);
        } else {
          MentionsNext(field, rest.fields, name);
        }
      } else if Mentions(rest.fields, name) {
        MentionsNext(field, rest.fields, name);
      }
    }
  }

  // ----- Every definition is referred to -----

  ghost predicate Referenced(s: Schema, name: string) {
    exists typ :: IsReference(s, typ) && BaseOf(typ) == name
  }

  lemma FieldReferences(s: Schema, d: Definition, k: nat)
    requires d in s.types && k < |d.fields|
    ensures Referenced(s, BaseOf(d.fields[k].typ))
  {
    var i :| 0 <= i < |s.types| && s.types[i] == d;
    assert FieldRefers(s.types[i], d.fields[k].typ);
    assert IsReference(s, d.fields[k].typ);
  }

  /** A field of a nested type: its output type has the nested name as its base, its input type the input name. */
  lemma FieldBases(fields: seq<Field>, nested: seq<NestedType>, name: string) returns (k: nat)
    requires FieldsResolve(fields, Names(nested)) && Mentions(fields, name) && name in Names(nested)
    ensures k < |fields|
    ensures BaseOf(OutputFields(fields)[k].typ) == name
    ensures BaseOf(InputFields(fields, Names(nested))[k].typ) == name + "Input"
  {
    k :| k < |fields| && BaseOf(fields[k].typ) == name;
    var names := Names(nested);
    var t :| RefersTo(fields[k].typ, t, names);
    var bang := !fields[k].nullable;
    RenamesInside(t, false, names);
    assert Print(t) + "" == Print(t) && Print(Rename(t, names)) + "" == Print(Rename(t, names));
    RenamedBase(t, names);
    BaseOfPrint(t);
    BaseOfPrint(Rename(t, names));
    BaseOfBang(fields[k].typ, bang);
    BaseOfBang(GetInputTypeName(fields[k].typ, names), bang);
  }

  lemma {:induction false} NestedHas(nested: seq<NestedType>, all: seq<string>, m: nat)
    requires m < |nested|
    ensures Definition(Object, nested[m].name, OutputFields(nested[m].fields)) in NestedDefinitions(nested, all)
    ensures Definition(Input, nested[m].name + "Input", InputFields(nested[m].fields, all)) in NestedDefinitions(nested, all)
  {
    if m == 0 {
      var parts := NestedDefinitions(nested, all);
      assert parts[0] in parts && parts[1] in parts;
    } else {
      NestedHas(nested[1..], all, m - 1);
    }
  }

  lemma NestedReferenced(collectionName: string, walked: Walked, s: Schema, name: string)
    requires Ordered(walked.nested) && FieldsResolve(walked.fields, Names(walked.nested))
    requires forall d :: d in CollectionDefinitions(collectionName, walked) ==> d in s.types
    requires name in Names(walked.nested)
    requires Mentions(walked.fields, name) || NestedMentions(walked.nested, name)
    ensures Referenced(s, name) && Referenced(s, name + "Input")
  {
    if Mentions(walked.fields, name) {
      MainReferences(collectionName, walked, s, name);
    } else {
      var parts := CollectionDefinitions(collectionName, walked);
      assert forall d :: d in NestedDefinitions(walked.nested, Names(walked.nested)) ==> d in parts;
      NestedReferences(walked, s, name);
    }
  }

  lemma MainReferences(collectionName: string, walked: Walked, s: Schema, name: string)
    requires FieldsResolve(walked.fields, Names(walked.nested)) && name in Names(walked.nested)
    requires forall d :: d in CollectionDefinitions(collectionName, walked) ==> d in s.types
    requires Mentions(walked.fields, name)
    ensures Referenced(s, name) && Referenced(s, name + "Input")
  {
    var names := Names(walked.nested);
    var parts := CollectionDefinitions(collectionName, walked);
    var k := FieldBases(walked.fields, walked.nested, name);
    var main := MainDefinition(collectionName, walked.fields);
    var state := PushDefinitions(collectionName, walked.fields, names)[0];
    assert main == parts[|NestedDefinitions(walked.nested, names)|];
    assert state == parts[|NestedDefinitions(walked.nested, names)| + 2];
    FieldReferences(s, main, k);
    FieldReferences(s, state, k);
  }

  lemma NestedReferences(walked: Walked, s: Schema, name: string)
    requires Ordered(walked.nested) && name in Names(walked.nested) && NestedMentions(walked.nested, name)
    requires forall d :: d in NestedDefinitions(walked.nested, Names(walked.nested)) ==> d in s.types
    ensures Referenced(s, name) && Referenced(s, name + "Input")
  {
    var names := Names(walked.nested);
    var m :| 0 <= m < |walked.nested| && Mentions(walked.nested[m].fields, name);
    var NestedType(inner, fields) := walked.nested[m];
    NestedFieldsResolve(walked.nested);
    var k := FieldBases(fields, walked.nested, name);
    NestedHas(walked.nested, names, m);
    FieldReferences(s, Definition(Object, inner, OutputFields(fields)), k);
    FieldReferences(s, Definition(Input, inner + "Input", InputFields(fields, names)), k);
  }

  lemma OperationReferences(s: Schema, typ: string, i: nat)
    requires || (i < |s.queries| && OperationRefers(s.queries[i], typ))
             || (i < |s.mutations| && OperationRefers(s.mutations[i], typ))
    ensures Referenced(s, BaseOf(typ))
  {
    assert IsReference(s, typ);
  }

  lemma BulkReferenced(s: Schema, i: nat, name: string)
    requires IsName(name) && i < |s.queries| && s.queries[i] == QueryField(name)
    ensures Referenced(s, name + "PullBulk")
  {
    NameAppend(name, "PullBulk");
    BaseOfPlain(name + "PullBulk");
    BaseOfBang(name + "PullBulk", true);
    assert (name + "PullBulk") + "!" == name + "PullBulk!";
    OperationReferences(s, name + "PullBulk!", i);
  }

  lemma RowReferenced(s: Schema, i: nat, name: string)
    requires IsName(name) && i < |s.mutations| && s.mutations[i] == MutationField(name)
    ensures Referenced(s, name + "InputPushRow")
  {
    var row := name + "InputPushRow";
    RowName(name);
    BaseOfPlain(row);
    BaseOfList(row, true);
    assert "[" + row + "!" + "]" == "[" + name + "InputPushRow!]";
    assert s.mutations[i].args[0].typ == "[" + name + "InputPushRow!]";
    OperationReferences(s, "[" + name + "InputPushRow!]", i);
  }

  lemma StatesReferenced(s: Schema, row: string)
    requires IsName(row) && PushRow(row) in s.types
    ensures Referenced(s, row + "T0AssumedMasterStateT0") && Referenced(s, row + "T0NewDocumentStateT0")
  {
    NameAppend(row, "T0AssumedMasterStateT0");
    NameAppend(row, "T0NewDocumentStateT0");
    BaseOfPlain(row + "T0AssumedMasterStateT0");
    BaseOfPlain(row + "T0NewDocumentStateT0");
    BaseOfBang(row + "T0NewDocumentStateT0", true);
    assert (row + "T0NewDocumentStateT0") + "!" == row + "T0NewDocumentStateT0!";
    FieldReferences(s, PushRow(row), 0);
    FieldReferences(s, PushRow(row), 1);
  }

  lemma ObjectReferenced(s: Schema, name: string)
    requires IsName(name) && PullBulk(name) in s.types
    ensures Referenced(s, name)
  {
    BaseOfPlain(name);
    BaseOfList(name, true);
    BaseOfBang("[" + name + "!]", true);
    assert "[" + name + "!" + "]" == "[" + name + "!]" && "[" + name + "!]" + "!" == "[" + name + "!]!";
    FieldReferences(s, PullBulk(name), 0);
  }

  lemma MainReferenced(s: Schema, i: nat, name: string, walked: Walked)
    requires IsName(name) && i < |s.queries| && s.queries[i] == QueryField(name)
    requires i < |s.mutations| && s.mutations[i] == MutationField(name)
    requires forall d :: d in CollectionDefinitions(name, walked) ==> d in s.types
    ensures forall n :: n in MainNames(name) ==> Referenced(s, n)
  {
    var row := name + "InputPushRow";
    FiveReferenced(s, i, name, walked, row);
    forall n | n in MainNames(name) ensures Referenced(s, n) { MainNameIs(name, row, n); }
  }

  lemma FiveReferenced(s: Schema, i: nat, name: string, walked: Walked, row: string)
    requires IsName(name) && i < |s.queries| && s.queries[i] == QueryField(name) && row == name + "InputPushRow"
    requires i < |s.mutations| && s.mutations[i] == MutationField(name)
    requires forall d :: d in CollectionDefinitions(name, walked) ==> d in s.types
    ensures Referenced(s, name) && Referenced(s, name + "PullBulk") && Referenced(s, row)
    ensures Referenced(s, row + "T0AssumedMasterStateT0") && Referenced(s, row + "T0NewDocumentStateT0")
  {
    BulkAndRowDefined(name, walked);
    ObjectReferenced(s, name);
    BulkReferenced(s, i, name);
    RowReferenced(s, i, name);
    RowName(name);
    StatesReferenced(s, row);
  }

  lemma MainNameIs(name: string, row: string, n: string)
    requires row == name + "InputPushRow" && n in MainNames(name)
    ensures n == name || n == name + "PullBulk" || n == row
         || n == row + "T0AssumedMasterStateT0" || n == row + "T0NewDocumentStateT0"
  {}

  lemma BulkAndRowDefined(name: string, walked: Walked)
    ensures PullBulk(name) in CollectionDefinitions(name, walked)
    ensures PushRow(name + "InputPushRow") in CollectionDefinitions(name, walked)
  {
    var parts := CollectionDefinitions(name, walked);
    var from := |NestedDefinitions(walked.nested, Names(walked.nested))|;
    assert parts[from + 1] == PullBulk(name) && parts[from + 4] == PushRow(name + "InputPushRow");
  }

  lemma {:induction false} PairsAre(names: seq<string>, name: string)
    requires name in PairNames(names)
    ensures exists n :: n in names && (name == n || name == n + "Input")
  {
    if name == names[0] || name == names[0] + "Input" {
      assert names[0] in names;
    } else {
      PairsAre(names[1..], name);
      var n :| n in names[1..] && (name == n || name == n + "Input");
      assert n in names;
    }
  }

  ghost predicate BuiltBy(c: Collection, name: string) {
    match WalkCollectionSchema(c.ast, c.name)
    case Ok(walked) => name in PairNames(Names(walked.nested)) || name in MainNames(c.name)
    case Err(_) => false
  }

  lemma NamesOfBuilt(c: Collection, name: string)
    requires WalkCollectionSchema(c.ast, c.name).Ok? && name in NamesOf(c)
    ensures BuiltBy(c, name)
  {
    WalkNames(c.ast, 0, c.name, []);
    assert Names(WalkCollectionSchema(c.ast, c.name).value.nested) == PropertyNames(c.ast, 0, c.name);
  }

  lemma {:induction false} BuiltFrom(collections: seq<Collection>, name: string) returns (i: nat)
    requires name in BuiltNames(collections)
    ensures i < |collections| && name in NamesOf(collections[i])
  {
    if name in NamesOf(collections[0]) {
      i := 0;
    } else {
      var j := BuiltFrom(collections[1..], name);
      i := j + 1;
    }
  }

  lemma PairReferenced(s: Schema, c: Collection, walked: Walked, name: string)
    requires IsName(c.name) && PlainKeys(c.ast) && WalkCollectionSchema(c.ast, c.name) == Ok(walked)
    requires forall d :: d in CollectionDefinitions(c.name, walked) ==> d in s.types
    requires name in PairNames(Names(walked.nested))
    ensures Referenced(s, name)
  {
    PairsAre(Names(walked.nested), name);
    var n :| n in Names(walked.nested) && (name == n || name == n + "Input");
    CollectionResolves(c.ast, c.name);
    WalkMentions(c.ast, 0, c.name, []);
    var k :| 0 <= k < |walked.nested| && walked.nested[k].name == n;
    NestedReferenced(c.name, walked, s, n);
  }

  /** Every definition of a collection is referred to. */
  lemma BuiltReferenced(collections: seq<Collection>, name: string)
    requires PlainCollections(collections) && GraphQLSchema(collections).Ok? && name in BuiltNames(collections)
    ensures Referenced(GraphQLSchema(collections).value, name)
  {
    var s := GraphQLSchema(collections).value;
    var i := BuiltFrom(collections, name);
    Holds(collections, i);
    NamesOfBuilt(collections[i], name);
    var walked := WalkCollectionSchema(collections[i].ast, collections[i].name).value;
    if name in MainNames(collections[i].name) {
      MainReferenced(s, i, collections[i].name, walked);
    } else {
      PairReferenced(s, collections[i], walked, name);
    }
  }

  // ----- Every reference is to a name of the schema -----

  lemma FixedNamesDistinct()
    ensures Distinct(FIXED_NAMES)
  {}

  lemma {:induction false} PlainWords()
    ensures PlainText("PullCheckpoint") && PlainText("BulkCheckpoint") && PlainText("Boundary")
    ensures PlainText("Mode") && PlainText("Input") && PlainText("RxDbDocument")
  {}

  lemma {:induction false} PlainAppend(a: string, b: string)
    requires PlainText(a) && PlainText(b)
    ensures PlainText(a + b)
  {}

  lemma {:induction false} FixedTypePlain(typ: string)
    requires typ in FIXED_TYPES || typ == "RxDbDocument"
    ensures PlainText(typ)
  {
    PlainWords();
    PlainAppend("PullCheckpoint", "Mode");
    PlainAppend("PullCheckpoint", "Boundary");
    PlainAppend("PullCheckpoint" + "Boundary", "Input");
    PlainAppend("BulkCheckpoint", "Boundary");
    assert "PullCheckpointMode" == "PullCheckpoint" + "Mode";
    assert "PullCheckpointBoundaryInput" == "PullCheckpoint" + "Boundary" + "Input";
    assert "BulkCheckpointBoundary" == "BulkCheckpoint" + "Boundary";
  }

  lemma FixedTypeKnown(typ: string)
    requires typ in FIXED_TYPES || typ == "RxDbDocument"
    ensures BaseOf(typ) in FIXED_NAMES
  {
    FixedTypePlain(typ);
    BaseOfPlain(typ);
    assert typ in FIXED_NAMES;
  }

  lemma FixedScalarKnown(name: string)
    requires name in FIXED_SCALARS
    ensures BaseOf(name + "!") in FIXED_NAMES
  {
    ScalarIsName(name);
    BaseOfPlain(name);
    BaseOfBang(name, true);
  }

  lemma ClosedKnown(typ: string, s: Schema, keyword: Keyword)
    requires Closed(typ, s.types, keyword)
    ensures BaseOf(typ) in AllNames(s)
  {
    var t, outer :| Found(typ, t, outer, s.types, keyword);
    BaseOfBang(Print(t), outer);
    BaseOfPrint(t);
    if Defines(s.types, keyword, Base(t)) {
      var d :| d in s.types && d.keyword == keyword && d.name == Base(t);
      var i :| 0 <= i < |s.types| && s.types[i] == d;
      assert TypeNames(s.types)[i] == Base(t);
    } else {
      assert Base(t) in FIXED_NAMES;
    }
  }

  lemma OperationKnown(o: Operation, typ: string, s: Schema)
    requires OperationClosed(o, s.types) && OperationRefers(o, typ)
    ensures BaseOf(typ) in AllNames(s)
  {
    if o.typ == typ {
      ClosedKnown(typ, s, Object);
    } else {
      var k :| 0 <= k < |o.args| && o.args[k].typ == typ;
      ClosedKnown(typ, s, Input);
    }
  }

  lemma ReferenceKnown(s: Schema, typ: string)
    requires AllClosed(s.types, s.types) && OperationsClosed(s.queries, s.types)
    requires OperationsClosed(s.mutations, s.types) && OperationsClosed(s.subscriptions, s.types)
    requires IsReference(s, typ)
    ensures BaseOf(typ) in AllNames(s)
  {
    if typ in FIXED_TYPES || typ == "RxDbDocument" {
      FixedTypeKnown(typ);
    } else if name :| name in FIXED_SCALARS && typ == name + "!" {
      FixedScalarKnown(name);
    } else if i :| 0 <= i < |s.types| && FieldRefers(s.types[i], typ) {
      var k :| 0 <= k < |s.types[i].fields| && s.types[i].fields[k].typ == typ;
      ClosedKnown(typ, s, s.types[i].keyword);
    } else if i :| 0 <= i < |s.queries| && OperationRefers(s.queries[i], typ) {
      OperationKnown(s.queries[i], typ, s);
    } else if i :| 0 <= i < |s.mutations| && OperationRefers(s.mutations[i], typ) {
      OperationKnown(s.mutations[i], typ, s);
    } else {
      var i :| 0 <= i < |s.subscriptions| && OperationRefers(s.subscriptions[i], typ);
      OperationKnown(s.subscriptions[i], typ, s);
    }
  }

  // ----- One definition for each reference -----

  lemma DistinctOnce(names: seq<string>, name: string)
    requires Distinct(names) && name in names
    ensures OccursOnce(names, name)
  {
    var i :| 0 <= i < |names| && names[i] == name;
    assert forall j :: 0 <= j < |names| && names[j] == name ==> j == i;
  }

  lemma AmbiguousName(fixed: seq<string>, built: seq<string>) returns (name: string)
    requires Distinct(fixed) && !Distinct(fixed + built)
    ensures name in built && !OccursOnce(fixed + built, name)
  {
    var all := fixed + built;
    var i, j :| 0 <= i < j < |all| && all[i] == all[j];
    assert j >= |fixed|;
    name := all[j];
    assert built[j - |fixed|] == name;
  }

  /**
   * In every generated schema, each reference is to exactly one definition if and only if the names built
   * from the collection and property names are pairwise distinct, and distinct from the fixed names.
   */
  lemma ResolvesOnceIff(collections: seq<Collection>)
    requires PlainCollections(collections) && GraphQLSchema(collections).Ok?
    ensures ResolvesOnce(GraphQLSchema(collections).value) <==> Distinct(FIXED_NAMES + BuiltNames(collections))
  {
    var s := GraphQLSchema(collections).value;
    DefinitionsAreBuilt(collections);
    ReferencesResolve(collections);
    if Distinct(FIXED_NAMES + BuiltNames(collections)) {
      forall typ | IsReference(s, typ) ensures OccursOnce(AllNames(s), BaseOf(typ)) {
        ReferenceKnown(s, typ);
        DistinctOnce(AllNames(s), BaseOf(typ));
      }
    } else {
      FixedNamesDistinct();
      var name := AmbiguousName(FIXED_NAMES, BuiltNames(collections));
      BuiltReferenced(collections, name);
      var typ :| IsReference(s, typ) && BaseOf(typ) == name;
      assert !OccursOnce(AllNames(s), BaseOf(typ));
    }
  }

  // ----- Two properties with one nested name -----

  function Struct(name: string, ast: Ast): Ast {
    TypeLiteral([Property(Text(name), false, ast)], false)
  }

  function OneText(name: string): Ast {
    Struct(name, Node("StringKeyword"))
  }

  /** `foo: {bar: {x}}` and `fooBar: {y}`. */
  const TWO_BARS: Ast := TypeLiteral([Property(Text("foo"), false, Struct("bar", OneText("x"))),
                                      Property(Text("fooBar"), false, OneText("y"))], false)

  const BAR_X := NestedType("CFooBar", [Field("x", "String", false)])
  const FOO := NestedType("CFoo", [Field("bar", "CFooBar", false)])
  const FOO_BAR_Y := NestedType("CFooBar", [Field("y", "String", false)])

  lemma WalkNext(literal: Ast, i: nat, collectionName: string, nested: seq<NestedType>, t: Typed, rest: Walked)
    requires literal.TypeLiteral? && i < |literal.properties| && literal.properties[i].key.Text?
    requires DetermineType(literal.properties[i].ast, literal.properties[i].key.name, collectionName, nested) == Ok(t)
    requires WalkProperties(literal, i + 1, collectionName, t.nested) == Ok(rest)
    ensures var Property(key, optional, _) := literal.properties[i];
            WalkProperties(literal, i, collectionName, nested)
            == Ok(Walked([Field(key.name, t.typ, optional)] + rest.fields, rest.nested))
  {}

  lemma StructType(name: string, ast: Ast, fieldName: string, collectionName: string, nested: seq<NestedType>, t: Typed)
    requires DetermineType(ast, name, NestedTypeName(collectionName, fieldName), nested) == Ok(t)
    ensures var typ := NestedTypeName(collectionName, fieldName);
            DetermineType(Struct(name, ast), fieldName, collectionName, nested)
            == Ok(Typed(typ, t.nested + [NestedType(typ, [Field(name, t.typ, false)])]))
  {
    WalkNext(Struct(name, ast), 0, NestedTypeName(collectionName, fieldName), nested, t, Walked([], t.nested));
    assert [Field(name, t.typ, false)] + [] == [Field(name, t.typ, false)];
  }

  lemma OneTextType(name: string, fieldName: string, collectionName: string, nested: seq<NestedType>)
    requires name != "id"
    ensures var typ := NestedTypeName(collectionName, fieldName);
            DetermineType(OneText(name), fieldName, collectionName, nested)
            == Ok(Typed(typ, nested + [NestedType(typ, [Field(name, "String", false)])]))
  {
    var t := Typed("String", nested);
    assert DetermineType(Node("StringKeyword"), name, NestedTypeName(collectionName, fieldName), nested) == Ok(t);
    StructType(name, Node("StringKeyword"), fieldName, collectionName, nested, t);
  }

  lemma FooType()
    ensures DetermineType(Struct("bar", OneText("x")), "foo", "C", []) == Ok(Typed("CFoo", [BAR_X, FOO]))
  {
    assert NestedTypeName("C", "foo") == "CFoo" && NestedTypeName("CFoo", "bar") == "CFooBar";
    OneTextType("x", "bar", "CFoo", []);
    assert [] + [BAR_X] == [BAR_X] && [BAR_X] + [FOO] == [BAR_X, FOO];
    StructType("bar", OneText("x"), "foo", "C", [], Typed("CFooBar", [BAR_X]));
  }

  lemma FooBarType()
    ensures DetermineType(OneText("y"), "fooBar", "C", [BAR_X, FOO]) == Ok(Typed("CFooBar", [BAR_X, FOO, FOO_BAR_Y]))
  {
    assert NestedTypeName("C", "fooBar") == "CFooBar";
    OneTextType("y", "fooBar", "C", [BAR_X, FOO]);
    assert [BAR_X, FOO] + [FOO_BAR_Y] == [BAR_X, FOO, FOO_BAR_Y];
  }

  /** The collection `C` with these properties gets two different types called `CFooBar`. */
  lemma EqualNestedNames()
    ensures WalkCollectionSchema(TWO_BARS, "C")
         == Ok(Walked([Field("foo", "CFoo", false), Field("fooBar", "CFooBar", false)], [BAR_X, FOO, FOO_BAR_Y]))
  {
    var foo, fooBar := Field("foo", "CFoo", false), Field("fooBar", "CFooBar", false);
    FooType();
    FooBarType();
    WalkNext(TWO_BARS, 1, "C", [BAR_X, FOO], Typed("CFooBar", [BAR_X, FOO, FOO_BAR_Y]),
             Walked([], [BAR_X, FOO, FOO_BAR_Y]));
    assert [fooBar] + [] == [fooBar] && [foo] + [fooBar] == [foo, fooBar];
    WalkNext(TWO_BARS, 0, "C", [], Typed("CFoo", [BAR_X, FOO]), Walked([fooBar], [BAR_X, FOO, FOO_BAR_Y]));
  }

  lemma {:induction false} NestedAt(nested: seq<NestedType>, all: seq<string>, m: nat)
    requires m < |nested|
    ensures |NestedDefinitions(nested, all)| == 2 * |nested|
    ensures NestedDefinitions(nested, all)[2 * m] == Definition(Object, nested[m].name, OutputFields(nested[m].fields))
  {
    if |nested| == 1 {
      assert NestedDefinitions(nested[1..], all) == [];
    } else {
      NestedAt(nested[1..], all, if m == 0 then 0 else m - 1);
    }
  }

  lemma OneCollection(c: Collection, walked: Walked, m: nat)
    requires WalkCollectionSchema(c.ast, c.name) == Ok(walked) && m < |walked.nested|
    ensures GraphQLSchema([c]).Ok?
    ensures var types := GraphQLSchema([c]).value.types;
            && |types| > 2 * |walked.nested|
            && types[2 * m] == Definition(Object, walked.nested[m].name, OutputFields(walked.nested[m].fields))
            && types[2 * |walked.nested|] == MainDefinition(c.name, walked.fields)
  {
    assert [c][1..] == [] && Definitions([]) == Ok([]);
    var parts := CollectionDefinitions(c.name, walked);
    NestedAt(walked.nested, Names(walked.nested), m);
    assert parts + [] == parts;
  }

  lemma TwiceIsNotOnce(fixed: seq<string>, built: seq<string>, i: nat, j: nat)
    requires i < j < |built| && built[i] == built[j]
    ensures !OccursOnce(fixed + built, built[i])
  {
    assert (fixed + built)[|fixed| + i] == (fixed + built)[|fixed| + j] == built[i];
  }

  lemma TwiceIsAmbiguous(s: Schema, i: nat, j: nat, d: nat, k: nat, name: string)
    requires i < j < |s.types| && s.types[i].name == s.types[j].name == name && IsName(name)
    requires d < |s.types| && k < |s.types[d].fields| && s.types[d].fields[k].typ == name + Bang(true)
    ensures IsReference(s, name + Bang(true)) && BaseOf(name + Bang(true)) == name && !ResolvesOnce(s)
  {
    BaseOfPlain(name);
    BaseOfBang(name, true);
    assert FieldRefers(s.types[d], name + Bang(true));
    TwiceIsNotOnce(FIXED_NAMES, TypeNames(s.types), i, j);
  }

  lemma TwoBars()
    ensures BAR_X.name == FOO_BAR_Y.name == "CFooBar" && IsName("CFooBar")
    ensures BAR_X.fields != [] && FOO_BAR_Y.fields != [] && BAR_X.fields[0].name != FOO_BAR_Y.fields[0].name
  {
    assert BAR_X.fields[0].name == "x" && FOO_BAR_Y.fields[0].name == "y";
  }

  lemma TwoNestedOfOneName(c: Collection, walked: Walked, i: nat, j: nat, k: nat)
    requires WalkCollectionSchema(c.ast, c.name) == Ok(walked) && i < j < |walked.nested| && k < |walked.fields|
    requires walked.nested[i].name == walked.nested[j].name == walked.fields[k].typ && IsName(walked.fields[k].typ)
    requires !walked.fields[k].nullable && walked.nested[i].fields != [] && walked.nested[j].fields != []
    requires walked.nested[i].fields[0].name != walked.nested[j].fields[0].name
    ensures GraphQLSchema([c]).Ok? && |GraphQLSchema([c]).value.types| > 2 * j
    ensures var s := GraphQLSchema([c]).value;
            && s.types[2 * i].name == s.types[2 * j].name == walked.fields[k].typ
            && s.types[2 * i].keyword == s.types[2 * j].keyword && s.types[2 * i].fields != s.types[2 * j].fields
            && IsReference(s, walked.fields[k].typ + Bang(true)) && !ResolvesOnce(s)
  {
    OneCollection(c, walked, i);
    OneCollection(c, walked, j);
    var s := GraphQLSchema([c]).value;
    assert s.types[2 * |walked.nested|].fields[k].typ == walked.fields[k].typ + Bang(true);
    TwiceIsAmbiguous(s, 2 * i, 2 * j, 2 * |walked.nested|, k, walked.fields[k].typ);
    assert s.types[2 * i].fields[0].name == walked.nested[i].fields[0].name;
    assert s.types[2 * j].fields[0].name == walked.nested[j].fields[0].name;
  }

  /** So the type of the field `fooBar` has two definitions, with different fields. */
  lemma AmbiguousSchema()
    ensures GraphQLSchema([Collection("C", TWO_BARS)]).Ok?
    ensures var s := GraphQLSchema([Collection("C", TWO_BARS)]).value;
            && |s.types| > 4 && s.types[0].name == s.types[4].name == "CFooBar"
            && s.types[0].keyword == s.types[4].keyword && s.types[0].fields != s.types[4].fields
            && IsReference(s, "CFooBar" + Bang(true)) && !ResolvesOnce(s)
  {
    EqualNestedNames();
    TwoBars();
    var walked := Walked([Field("foo", "CFoo", false), Field("fooBar", "CFooBar", false)], [BAR_X, FOO, FOO_BAR_Y]);
    TwoNestedOfOneName(Collection("C", TWO_BARS), walked, 0, 2, 1);
  }
}

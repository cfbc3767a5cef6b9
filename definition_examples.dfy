/**
 * The parser's test cases for empty input, schema definitions and
 * extensions, type extensions, and interface, enum and input object type
 * definitions. Each is stated for every token stream whose tokens have the
 * keywords the lexer produces for the test's input; the names, strings and
 * descriptions in the result are the texts of the tokens at the positions
 * the lemma gives, so the proofs follow the grammar instead of evaluating
 * one concrete stream.
 */
module DefinitionExamples {
  import opened Wrappers
  import opened Tokens
  import opened Syntax
  import opened Grammar
  import opened Ast
  import opened AstParser
  import opened ParserExamples

  // ------------------------------------------------------------ empty input

  /** An empty token stream is a document without definitions. */
  lemma EmptyDocument()
    ensures DocumentAt([], 0) == Ok([], 0)
  {}

  /** parse accepts empty input and stores no root nodes. */
  method EmptyInputTest() returns (err: Option<ParseError>, roots: seq<RootNode>)
    ensures err.None? && roots == []
  {
    var document := new Document();
    EmptyDocument();
    err := Parse([], document);
    roots := document.rootNodes;
  }

  // ---------------------------------------------------------------- schema

  /** `query: Query mutation: Mutation subscription: Subscription }` from index `i`. */
  predicate RootOperationKinds(ts: seq<Token>, i: nat) {
    && KindAt(ts, i) == Query && KindAt(ts, i + 1) == Colon && KindAt(ts, i + 2) == Ident
    && KindAt(ts, i + 3) == Mutation && KindAt(ts, i + 4) == Colon && KindAt(ts, i + 5) == Ident
    && KindAt(ts, i + 6) == Subscription && KindAt(ts, i + 7) == Colon && KindAt(ts, i + 8) == Ident
    && KindAt(ts, i + 9) == CurlyBracketClose
  }

  /** The query, mutation and subscription root types named from index `i`, in that order. */
  function RootOperationsFrom(ts: seq<Token>, i: nat): seq<RootOperationTree> {
    [RootOperationTree(QueryOp, LiteralAt(ts, i + 2)), RootOperationTree(MutationOp, LiteralAt(ts, i + 5)),
     RootOperationTree(SubscriptionOp, LiteralAt(ts, i + 8))]
  }

  /** The root operation types of a schema body are kept in the order they are written, up to the `}`. */
  lemma RootOperationsInOrder(ts: seq<Token>, i: nat)
    requires i + 10 <= |ts| && RootOperationKinds(ts, i)
    ensures RootOperationsAt(ts, i) == Ok(RootOperationsFrom(ts, i), i + 10)
  {
    assert RootOperationsAt(ts, i + 9) == Ok([], i + 10);
    RootOperationsStep(ts, i + 6);
    RootOperationsStep(ts, i + 3);
    RootOperationsStep(ts, i);
    assert RootOperationsAt(ts, i).value == RootOperationsFrom(ts, i);
  }

  /** `schema { query: Query mutation: Mutation subscription: Subscription }` is one schema definition. */
  lemma SimpleSchema(ts: seq<Token>)
    requires |ts| == 12 && KindAt(ts, 0) == Keyword.Schema && KindAt(ts, 1) == CurlyBracketOpen
    requires RootOperationKinds(ts, 2)
    ensures DocumentAt(ts, 0) == Ok([SchemaT(false, [], RootOperationsFrom(ts, 2))], 12)
  {
    RootOperationsInOrder(ts, 2);
    assert DefinitionAt(ts, 0) == Ok(SchemaT(false, [], RootOperationsFrom(ts, 2)), |ts|);
    OneDefinition(ts);
  }

  /** `extend schema { query: Query mutation: Mutation subscription: Subscription }` is one schema extension. */
  lemma SimpleSchemaExtension(ts: seq<Token>)
    requires |ts| == 13 && KindAt(ts, 0) == Extend && KindAt(ts, 1) == Keyword.Schema
    requires KindAt(ts, 2) == CurlyBracketOpen && RootOperationKinds(ts, 3)
    ensures DocumentAt(ts, 0) == Ok([SchemaT(true, [], RootOperationsFrom(ts, 3))], 13)
  {
    RootOperationsInOrder(ts, 3);
    assert ExtensionAt(ts, 1) == Ok(SchemaT(true, [], RootOperationsFrom(ts, 3)), 13);
    assert DefinitionAt(ts, 0) == Ok(SchemaT(true, [], RootOperationsFrom(ts, 3)), |ts|);
    OneDefinition(ts);
  }

  /** The directives of `schema @foo @bar(baz: "bal") {`: both, in order, and `bar`'s string argument. */
  lemma SchemaDirectives(ts: seq<Token>)
    requires |ts| == 15 && KindAt(ts, 1) == At && KindAt(ts, 2) == Ident
    requires KindAt(ts, 3) == At && KindAt(ts, 4) == Ident && KindAt(ts, 5) == BracketOpen
    requires KindAt(ts, 6) == Ident && KindAt(ts, 7) == Colon && KindAt(ts, 8) == String && KindAt(ts, 9) == BracketClose
    requires KindAt(ts, 10) == CurlyBracketOpen
    ensures DirectivesAt(ts, 1)
         == Ok([DirectiveTree(LiteralAt(ts, 2), []),
                DirectiveTree(LiteralAt(ts, 4), [ArgumentTree(LiteralAt(ts, 6), StringV(false, LiteralAt(ts, 8)))])], 10)
  {
    var bar := DirectiveTree(LiteralAt(ts, 4), [ArgumentTree(LiteralAt(ts, 6), StringV(false, LiteralAt(ts, 8)))]);
    assert ValueAt(ts, 8) == Ok(StringV(false, LiteralAt(ts, 8)), 9);
    assert ArgumentItemsAt(ts, 9) == Ok([], 10);
    ArgumentItemsStep(ts, 6);
    assert ArgumentItemsAt(ts, 6).value == bar.arguments;
    assert ArgumentsAt(ts, 5) == Ok(bar.arguments, 10);
    DirectiveNamed(ts, 3);
    assert DirectiveAt(ts, 3) == Ok(bar, 10);
    DirectiveNamed(ts, 1);
    assert DirectivesAt(ts, 10) == Ok([], 10);
    DirectivesStep(ts, 3);
    DirectivesStep(ts, 1);
    assert DirectivesAt(ts, 1).value == [DirectiveTree(LiteralAt(ts, 2), []), bar];
  }

  /** `schema @foo @bar(baz: "bal") { query: Query }`: a schema definition with both directives and one root type. */
  lemma SchemaWithDirectives(ts: seq<Token>)
    requires |ts| == 15 && KindAt(ts, 0) == Keyword.Schema
    requires KindAt(ts, 1) == At && KindAt(ts, 2) == Ident
    requires KindAt(ts, 3) == At && KindAt(ts, 4) == Ident && KindAt(ts, 5) == BracketOpen
    requires KindAt(ts, 6) == Ident && KindAt(ts, 7) == Colon && KindAt(ts, 8) == String && KindAt(ts, 9) == BracketClose
    requires KindAt(ts, 10) == CurlyBracketOpen
    requires KindAt(ts, 11) == Query && KindAt(ts, 12) == Colon && KindAt(ts, 13) == Ident
    requires KindAt(ts, 14) == CurlyBracketClose
    ensures DocumentAt(ts, 0)
         == Ok([SchemaT(false, [DirectiveTree(LiteralAt(ts, 2), []),
                                DirectiveTree(LiteralAt(ts, 4), [ArgumentTree(LiteralAt(ts, 6), StringV(false, LiteralAt(ts, 8)))])],
                        [RootOperationTree(QueryOp, LiteralAt(ts, 13))])], 15)
  {
    var ds := [DirectiveTree(LiteralAt(ts, 2), []),
               DirectiveTree(LiteralAt(ts, 4), [ArgumentTree(LiteralAt(ts, 6), StringV(false, LiteralAt(ts, 8)))])];
    var schema := SchemaT(false, ds, [RootOperationTree(QueryOp, LiteralAt(ts, 13))]);
    SchemaDirectives(ts);
    assert RootOperationsAt(ts, 14) == Ok([], 15);
    RootOperationsStep(ts, 11);
    assert RootOperationsAt(ts, 11).value == [RootOperationTree(QueryOp, LiteralAt(ts, 13))];
    assert SchemaOperationsAt(ts, 10, false, ds) == Ok(schema, 15);
    assert DefinitionAt(ts, 0) == Ok(schema, |ts|);
    OneDefinition(ts);
  }

  /** `schema` alone: the body is missing, reported at the end of the input. */
  lemma SchemaBodyMissing(ts: seq<Token>)
    requires |ts| == 1 && KindAt(ts, 0) == Keyword.Schema
    ensures DocumentAt(ts, 0) == Err(1)
  {
    assert DefinitionAt(ts, 0) == Err(1);
    DocumentStep(ts, 0);
  }

  /** `schema {`: the body is not closed, reported at the end of the input. */
  lemma SchemaBodyUnclosed(ts: seq<Token>)
    requires |ts| == 2 && KindAt(ts, 0) == Keyword.Schema && KindAt(ts, 1) == CurlyBracketOpen
    ensures DocumentAt(ts, 0) == Err(2)
  {
    assert SchemaOperationsAt(ts, 1, false, []) == Err(2);
    assert DefinitionAt(ts, 0) == Err(2);
    DocumentStep(ts, 0);
  }

  /** `schema @foo( {}`: the `{` where an argument name belongs is the error. */
  lemma SchemaDirectiveArgumentsUnclosed(ts: seq<Token>)
    requires |ts| == 6 && KindAt(ts, 0) == Keyword.Schema && KindAt(ts, 1) == At && KindAt(ts, 2) == Ident
    requires KindAt(ts, 3) == BracketOpen && KindAt(ts, 4) == CurlyBracketOpen && KindAt(ts, 5) == CurlyBracketClose
    ensures DocumentAt(ts, 0) == Err(4)
  {
    assert ArgumentsAt(ts, 3) == Err(4);
    DirectiveNamed(ts, 1);
    DirectivesStep(ts, 1);
    assert DefinitionAt(ts, 0) == Err(4);
    DocumentStep(ts, 0);
  }

  /** `schema foo {}`: a name without `@` is no directive, and a schema body must start with `{`. */
  lemma SchemaDirectiveWithoutAt(ts: seq<Token>)
    requires |ts| == 4 && KindAt(ts, 0) == Keyword.Schema && KindAt(ts, 1) == Ident
    requires KindAt(ts, 2) == CurlyBracketOpen && KindAt(ts, 3) == CurlyBracketClose
    ensures DocumentAt(ts, 0) == Err(1)
  {
    assert DefinitionAt(ts, 0) == Err(1);
    DocumentStep(ts, 0);
  }

  // ------------------------------------------------------ field definitions

  /** After a field's name: `: Type` with a bare named type, no arguments, no `!` and no directives. */
  lemma PlainFieldType(ts: seq<Token>, k: nat, d: DescriptionTree, name: string)
    requires k <= |ts| && KindAt(ts, k) == Colon && IsName(KindAt(ts, k + 1))
    requires KindAt(ts, k + 2) != Bang && KindAt(ts, k + 2) != At
    ensures FieldDefinitionArgumentsAt(ts, k, d, name)
         == Ok(FieldDefinitionTree(d, name, [], NamedT(LiteralAt(ts, k + 1)), []), k + 2)
  {
    var f := FieldDefinitionTree(d, name, [], NamedT(LiteralAt(ts, k + 1)), []);
    assert CoreTypeAt(ts, k + 1) == Ok(NamedT(LiteralAt(ts, k + 1)), k + 2);
    assert TypeAt(ts, k + 1) == Ok(NamedT(LiteralAt(ts, k + 1)), k + 2);
    assert DirectivesAt(ts, k + 2) == Ok([], k + 2);
    assert FieldDefinitionTypedAt(ts, k + 1, d, name, []) == Ok(f, k + 2);
  }

  /**
   * A field definition `Description? name: Type` whose type is a bare name,
   * with no arguments, no `!` and no directives.
   */
  lemma PlainFieldDefinition(ts: seq<Token>, i: nat, j: nat)
    requires i <= |ts| && j == DescriptionAt(ts, i).next
    requires IsName(KindAt(ts, j)) && KindAt(ts, j + 1) == Colon && IsName(KindAt(ts, j + 2))
    requires KindAt(ts, j + 3) != Bang && KindAt(ts, j + 3) != At
    ensures FieldDefinitionAt(ts, i)
         == Ok(FieldDefinitionTree(DescriptionAt(ts, i).value, LiteralAt(ts, j), [], NamedT(LiteralAt(ts, j + 2)), []), j + 3)
  {
    var d := DescriptionAt(ts, i).value;
    assert DescribedNameAt(ts, i) == Ok(DescribedName(d, LiteralAt(ts, j)), j + 1);
    PlainFieldType(ts, j + 1, d, LiteralAt(ts, j));
  }

  /** Putting `x` in front of `xs` as a one-element sequence is the list display that starts with `x`. */
  lemma Prepend<T>(x: T, xs: seq<T>)
    ensures xs == [] ==> [x] + xs == [x]
    ensures |xs| == 1 ==> [x] + xs == [x, xs[0]]
    ensures |xs| == 2 ==> [x] + xs == [x, xs[0], xs[1]]
    ensures |xs| == 3 ==> [x] + xs == [x, xs[0], xs[1], xs[2]]
  {
  }

  /** Field definitions read one by one: the field `f` from `i` to `n`, then the `}`. */
  lemma FieldsOne(ts: seq<Token>, i: nat, f: FieldDefinitionTree, n: nat)
    requires i <= |ts| && KindAt(ts, i) != CurlyBracketClose
    requires FieldDefinitionAt(ts, i) == Ok(f, n) && KindAt(ts, n) == CurlyBracketClose
    ensures FieldDefinitionsAt(ts, i) == Ok([f], n + 1)
  {
    FieldDefinitionsStep(ts, i);
    assert FieldDefinitionsAt(ts, n) == Ok([], n + 1);
    Prepend(f, []);
  }

  /** Field definitions read one by one: `f1`, `f2` and `f3` from `i`, ending at `n1`, `n2` and `n3`, then the `}`. */
  lemma FieldsThree(ts: seq<Token>, i: nat, f1: FieldDefinitionTree, n1: nat, f2: FieldDefinitionTree, n2: nat,
                    f3: FieldDefinitionTree, n3: nat)
    requires i <= |ts| && KindAt(ts, i) != CurlyBracketClose && KindAt(ts, n1) != CurlyBracketClose
    requires KindAt(ts, n2) != CurlyBracketClose && KindAt(ts, n3) == CurlyBracketClose
    requires FieldDefinitionAt(ts, i) == Ok(f1, n1) && FieldDefinitionAt(ts, n1) == Ok(f2, n2)
    requires FieldDefinitionAt(ts, n2) == Ok(f3, n3)
    ensures FieldDefinitionsAt(ts, i) == Ok([f1, f2, f3], n3 + 1)
  {
    FieldsOne(ts, n2, f3, n3);
    FieldDefinitionsStep(ts, n1);
    Prepend(f2, [f3]);
    FieldDefinitionsStep(ts, i);
    Prepend(f1, [f2, f3]);
  }

  /** The undescribed field `name: Type` whose tokens start at `i`. */
  function PlainFieldAt(ts: seq<Token>, i: nat): FieldDefinitionTree {
    FieldDefinitionTree(NoDescription, LiteralAt(ts, i), [], NamedT(LiteralAt(ts, i + 2)), [])
  }

  /** The undescribed field `name: Type` at `i`, followed by neither `!` nor `@`. */
  lemma UndescribedPlainField(ts: seq<Token>, i: nat)
    requires i <= |ts| && KindAt(ts, i) == Ident && KindAt(ts, i + 1) == Colon && KindAt(ts, i + 2) == Ident
    requires KindAt(ts, i + 3) != Bang && KindAt(ts, i + 3) != At
    ensures FieldDefinitionAt(ts, i) == Ok(PlainFieldAt(ts, i), i + 3)
  {
    PlainFieldDefinition(ts, i, i);
  }

  /** The field `"description" name: Type` whose tokens start at `i`, its description a block string when `block`. */
  function DescribedFieldAt(ts: seq<Token>, i: nat, block: bool): FieldDefinitionTree {
    FieldDefinitionTree(Described(block, LiteralAt(ts, i)), LiteralAt(ts, i + 1), [], NamedT(LiteralAt(ts, i + 3)), [])
  }

  /** The field `"description" name: Type` (a block string when `block`) at `i`, followed by neither `!` nor `@`. */
  lemma DescribedPlainField(ts: seq<Token>, i: nat, block: bool)
    requires i <= |ts| && KindAt(ts, i) == (if block then BlockString else String)
    requires KindAt(ts, i + 1) == Ident && KindAt(ts, i + 2) == Colon && KindAt(ts, i + 3) == Ident
    requires KindAt(ts, i + 4) != Bang && KindAt(ts, i + 4) != At
    ensures FieldDefinitionAt(ts, i) == Ok(DescribedFieldAt(ts, i, block), i + 4)
  {
    PlainFieldDefinition(ts, i, i + 1);
  }

  /** `{ name: String }` from index `i`, the `{` included. */
  predicate OneFieldKinds(ts: seq<Token>, i: nat) {
    && KindAt(ts, i) == CurlyBracketOpen && KindAt(ts, i + 1) == Ident && KindAt(ts, i + 2) == Colon
    && KindAt(ts, i + 3) == Ident && KindAt(ts, i + 4) == CurlyBracketClose
  }

  /** The fields definition `{ name: String }` holds the one field. */
  lemma OneFieldDefinition(ts: seq<Token>, i: nat)
    requires i + 5 <= |ts| && OneFieldKinds(ts, i)
    ensures FieldsDefinitionAt(ts, i) == Ok([PlainFieldAt(ts, i + 1)], i + 5)
  {
    PlainFieldDefinition(ts, i + 1, i + 1);
    assert FieldDefinitionsAt(ts, i + 4) == Ok([], i + 5);
    FieldDefinitionsStep(ts, i + 1);
    assert FieldDefinitionsAt(ts, i + 1).value == [PlainFieldAt(ts, i + 1)];
  }

  /** A directive `@name` without arguments at `i`, followed by no `(` and no other directive. */
  lemma BareDirective(ts: seq<Token>, i: nat)
    requires i <= |ts| && KindAt(ts, i) == At && IsName(KindAt(ts, i + 1))
    requires KindAt(ts, i + 2) != BracketOpen && KindAt(ts, i + 2) != At
    ensures DirectivesAt(ts, i) == Ok([DirectiveTree(LiteralAt(ts, i + 1), [])], i + 2)
  {
    assert ArgumentsAt(ts, i + 2) == Ok([], i + 2);
    DirectiveNamed(ts, i);
    assert DirectiveAt(ts, i) == Ok(DirectiveTree(LiteralAt(ts, i + 1), []), i + 2);
    assert DirectivesAt(ts, i + 2) == Ok([], i + 2);
    DirectivesStep(ts, i);
    assert DirectivesAt(ts, i).value == [DirectiveTree(LiteralAt(ts, i + 1), [])];
  }

  /** A definition without a description that starts with none of the other definitions' keywords is a type definition. */
  lemma TypeDefinitionFirst(ts: seq<Token>, i: nat)
    requires i <= |ts|
    requires KindAt(ts, i) !in {String, BlockString, Keyword.Schema, Extend, Query, Mutation, Subscription, CurlyBracketOpen, Fragment}
    ensures DefinitionAt(ts, i) == TypeSystemDefinitionAt(ts, i, NoDescription, false)
  {
    assert !DescriptionAt(ts, i).value.Described?;
    assert UndescribedDefinitionAt(ts, i) == TypeSystemDefinitionAt(ts, i, NoDescription, false);
  }

  /** `extend` followed by anything but `schema` is a type extension. */
  lemma TypeExtensionFirst(ts: seq<Token>, i: nat)
    requires i < |ts| && KindAt(ts, i) == Extend && KindAt(ts, i + 1) != Keyword.Schema
    ensures DefinitionAt(ts, i) == TypeSystemDefinitionAt(ts, i + 1, NoDescription, true)
  {
    assert !DescriptionAt(ts, i).value.Described?;
    assert UndescribedDefinitionAt(ts, i) == ExtensionAt(ts, i + 1);
  }

  // ------------------------------------------------------ object types

  /** The three fields of `{ name: String "age of the person" age: Int """date of birth""" dateOfBirth: Date }` from index `b`, the `{`. */
  predicate PersonFieldKinds(ts: seq<Token>, b: nat) {
    && KindAt(ts, b) == CurlyBracketOpen
    && KindAt(ts, b + 1) == Ident && KindAt(ts, b + 2) == Colon && KindAt(ts, b + 3) == Ident
    && KindAt(ts, b + 4) == String && KindAt(ts, b + 5) == Ident && KindAt(ts, b + 6) == Colon && KindAt(ts, b + 7) == Ident
    && KindAt(ts, b + 8) == BlockString && KindAt(ts, b + 9) == Ident && KindAt(ts, b + 10) == Colon && KindAt(ts, b + 11) == Ident
    && KindAt(ts, b + 12) == CurlyBracketClose
  }

  /** The fields of `Person` after the `{` at `b`: `name`, then `age` described by a string, then `dateOfBirth` by a block string. */
  function PersonFieldsFrom(ts: seq<Token>, b: nat): seq<FieldDefinitionTree> {
    [PlainFieldAt(ts, b + 1), DescribedFieldAt(ts, b + 4, false), DescribedFieldAt(ts, b + 8, true)]
  }

  /** The three fields of `Person`, in order, with their descriptions kept raw. */
  lemma PersonObjectFields(ts: seq<Token>, b: nat)
    requires b + 13 <= |ts| && PersonFieldKinds(ts, b)
    ensures FieldDefinitionsAt(ts, b + 1) == Ok(PersonFieldsFrom(ts, b), b + 13)
  {
    var name := PlainFieldAt(ts, b + 1);
    var age, birth := DescribedFieldAt(ts, b + 4, false), DescribedFieldAt(ts, b + 8, true);
    UndescribedPlainField(ts, b + 1);
    DescribedPlainField(ts, b + 4, false);
    DescribedPlainField(ts, b + 8, true);
    FieldsThree(ts, b + 1, name, b + 4, age, b + 8, birth, b + 12);
  }

  /** `implements Foo & Bar` at index `i`: both interfaces, in order. */
  lemma PersonInterfaces(ts: seq<Token>, i: nat)
    requires i + 5 <= |ts| && KindAt(ts, i) == Implements && KindAt(ts, i + 1) == Ident && KindAt(ts, i + 2) == And
    requires KindAt(ts, i + 3) == Ident && KindAt(ts, i + 4) == CurlyBracketOpen
    ensures ImplementsAt(ts, i) == Ok([LiteralAt(ts, i + 1), LiteralAt(ts, i + 3)], i + 4)
  {
    NamesStep(ts, i + 3, And);
    NamesStep(ts, i + 1, And);
    assert NamesAfterSeparatorAt(ts, i + 1, And).value == [LiteralAt(ts, i + 1), LiteralAt(ts, i + 3)];
  }

  /** `type Person implements Foo & Bar { … }` from index `i`, the three fields as in PersonFieldKinds. */
  predicate PersonKinds(ts: seq<Token>, i: nat) {
    && KindAt(ts, i) == Type && KindAt(ts, i + 1) == Ident
    && KindAt(ts, i + 2) == Implements && KindAt(ts, i + 3) == Ident && KindAt(ts, i + 4) == And && KindAt(ts, i + 5) == Ident
    && PersonFieldKinds(ts, i + 6)
  }

  /** The object type `Person` whose tokens start at `i`, as a definition or as an extension. */
  function PersonAt(ts: seq<Token>, i: nat, extension: bool): DefinitionTree {
    ObjectT(extension, NoDescription, LiteralAt(ts, i + 1), [LiteralAt(ts, i + 3), LiteralAt(ts, i + 5)], [], PersonFieldsFrom(ts, i + 6))
  }

  /**
   * `type Person implements Foo & Bar { … }` from index `i`: its name, both
   * interfaces in order, no directives and the three fields, whether it is
   * defined or extended.
   */
  lemma PersonObjectType(ts: seq<Token>, i: nat, extension: bool)
    requires i + 19 <= |ts| && PersonKinds(ts, i)
    ensures TypeSystemDefinitionAt(ts, i, NoDescription, extension) == Ok(PersonAt(ts, i, extension), i + 19)
  {
    var t := PersonAt(ts, i, extension);
    PersonObjectFields(ts, i + 6);
    PersonInterfaces(ts, i + 2);
    assert DirectivesAt(ts, i + 6) == Ok([], i + 6);
    assert FieldsDefinitionAt(ts, i + 6) == Ok(PersonFieldsFrom(ts, i + 6), i + 19);
    assert ObjectTypeBodyAt(ts, i + 6, NoDescription, extension, LiteralAt(ts, i + 1), t.interfaces) == Ok(t, i + 19);
    assert ObjectTypeAt(ts, i, NoDescription, extension) == Ok(t, i + 19);
  }

  /**
   * `type Person implements Foo & Bar { name: String "age of the person" age: Int
   * """date of birth""" dateOfBirth: Date }`: an object type definition with
   * both interfaces in order and three fields, the last two described.
   */
  lemma ObjectTypeDefinition(ts: seq<Token>)
    requires |ts| == 19 && PersonKinds(ts, 0)
    ensures DocumentAt(ts, 0) == Ok([PersonAt(ts, 0, false)], 19)
  {
    TypeDefinitionFirst(ts, 0);
    PersonObjectType(ts, 0, false);
    OneDefinition(ts);
  }

  /** The same object type after `extend`: an object type extension with the same parts. */
  lemma ObjectTypeExtension(ts: seq<Token>)
    requires |ts| == 20 && KindAt(ts, 0) == Extend && PersonKinds(ts, 1)
    ensures DocumentAt(ts, 0) == Ok([PersonAt(ts, 1, true)], 20)
  {
    TypeExtensionFirst(ts, 0);
    PersonObjectType(ts, 1, true);
    OneDefinition(ts);
  }

  /** `type Person @foo @bar {}`: an object type with both directives in order and an empty fields definition. */
  lemma ObjectWithDirectivesEmptyBody(ts: seq<Token>)
    requires |ts| == 8 && KindAt(ts, 0) == Type && KindAt(ts, 1) == Ident
    requires KindAt(ts, 2) == At && KindAt(ts, 3) == Ident && KindAt(ts, 4) == At && KindAt(ts, 5) == Ident
    requires KindAt(ts, 6) == CurlyBracketOpen && KindAt(ts, 7) == CurlyBracketClose
    ensures DocumentAt(ts, 0)
         == Ok([ObjectT(false, NoDescription, LiteralAt(ts, 1), [],
                        [DirectiveTree(LiteralAt(ts, 3), []), DirectiveTree(LiteralAt(ts, 5), [])], [])], 8)
  {
    var ds := [DirectiveTree(LiteralAt(ts, 3), []), DirectiveTree(LiteralAt(ts, 5), [])];
    var t := ObjectT(false, NoDescription, LiteralAt(ts, 1), [], ds, []);
    BareDirective(ts, 4);
    assert ArgumentsAt(ts, 4) == Ok([], 4);
    DirectiveNamed(ts, 2);
    assert DirectiveAt(ts, 2) == Ok(ds[0], 4);
    DirectivesStep(ts, 2);
    assert DirectivesAt(ts, 2).value == [ds[0]] + [ds[1]] == ds;
    assert FieldsDefinitionAt(ts, 6) == Ok([], 8);
    assert ObjectTypeBodyAt(ts, 2, NoDescription, false, LiteralAt(ts, 1), []) == Ok(t, 8);
    TypeDefinitionFirst(ts, 0);
    assert TypeSystemDefinitionAt(ts, 0, NoDescription, false) == Ok(t, 8);
    OneDefinition(ts);
  }

  // ------------------------------------------------ arguments definitions

  /** The input value `"description" name: Type` whose tokens start at `i`, its description a block string when `block`. */
  function DescribedArgumentAt(ts: seq<Token>, i: nat, block: bool): InputValueTree {
    InputValueTree(Described(block, LiteralAt(ts, i)), LiteralAt(ts, i + 1), NamedT(LiteralAt(ts, i + 3)), None, [])
  }

  /** The undescribed input value `name: Type!` whose tokens start at `i`. */
  function NonNullArgumentAt(ts: seq<Token>, i: nat): InputValueTree {
    InputValueTree(NoDescription, LiteralAt(ts, i), NonNullT(NamedT(LiteralAt(ts, i + 2))), None, [])
  }

  /** An input value `"description" name: Type` (a block string when `block`) at `i`, without `!`, default value or directives. */
  lemma DescribedInputValue(ts: seq<Token>, i: nat, block: bool)
    requires i <= |ts| && KindAt(ts, i) == (if block then BlockString else String)
    requires KindAt(ts, i + 1) == Ident && KindAt(ts, i + 2) == Colon && KindAt(ts, i + 3) == Ident
    requires KindAt(ts, i + 4) !in {Bang, Equals, At}
    ensures InputValueDefinitionAt(ts, i) == Ok(DescribedArgumentAt(ts, i, block), i + 4)
  {
    var d := Described(block, LiteralAt(ts, i));
    var v := DescribedArgumentAt(ts, i, block);
    assert TypeAt(ts, i + 3) == Ok(NamedT(LiteralAt(ts, i + 3)), i + 4);
    assert DefaultValueAt(ts, i + 4) == Ok(None, i + 4);
    assert DirectivesAt(ts, i + 4) == Ok([], i + 4);
    assert InputValueTypedAt(ts, i + 3, d, LiteralAt(ts, i + 1)) == Ok(v, i + 4);
    assert DescribedNameAt(ts, i) == Ok(DescribedName(d, LiteralAt(ts, i + 1)), i + 2);
    assert ExpectAt(ts, i + 2, Colon) == Ok(Colon, i + 3);
  }

  /** Input values read one by one: `v1`, `v2` and `v3` from `i`, ending at `n1`, `n2` and `n3`, then the closing token. */
  lemma InputValuesThree(ts: seq<Token>, i: nat, close: Keyword, v1: InputValueTree, n1: nat, v2: InputValueTree, n2: nat,
                         v3: InputValueTree, n3: nat)
    requires i <= |ts| && (close == BracketClose || close == CurlyBracketClose)
    requires KindAt(ts, i) != close && KindAt(ts, n1) != close && KindAt(ts, n2) != close && KindAt(ts, n3) == close
    requires InputValueDefinitionAt(ts, i) == Ok(v1, n1) && InputValueDefinitionAt(ts, n1) == Ok(v2, n2)
    requires InputValueDefinitionAt(ts, n2) == Ok(v3, n3)
    ensures InputValueDefinitionsAt(ts, i, close) == Ok([v1, v2, v3], n3 + 1)
  {
    assert InputValueDefinitionsAt(ts, n3, close) == Ok([], n3 + 1);
    InputValueDefinitionsStep(ts, n2, close);
    Prepend(v3, []);
    InputValueDefinitionsStep(ts, n1, close);
    Prepend(v2, [v3]);
    InputValueDefinitionsStep(ts, i, close);
    Prepend(v1, [v2, v3]);
  }

  /** An undescribed input value `name: Type!` at `i` without default value or directives: the type is the non-null named type. */
  lemma NonNullInputValue(ts: seq<Token>, i: nat)
    requires i <= |ts| && KindAt(ts, i) == Ident && KindAt(ts, i + 1) == Colon && KindAt(ts, i + 2) == Ident
    requires KindAt(ts, i + 3) == Bang && KindAt(ts, i + 4) !in {Bang, Equals, At}
    ensures InputValueDefinitionAt(ts, i) == Ok(NonNullArgumentAt(ts, i), i + 4)
  {
    var t := NonNullT(NamedT(LiteralAt(ts, i + 2)));
    var v := NonNullArgumentAt(ts, i);
    assert CoreTypeAt(ts, i + 2) == Ok(NamedT(LiteralAt(ts, i + 2)), i + 3);
    assert TypeAt(ts, i + 2) == Ok(t, i + 4);
    assert DefaultValueAt(ts, i + 4) == Ok(None, i + 4);
    assert DirectivesAt(ts, i + 4) == Ok([], i + 4);
    assert InputValueTypedAt(ts, i + 2, NoDescription, LiteralAt(ts, i)) == Ok(v, i + 4);
    assert DescribedNameAt(ts, i) == Ok(DescribedName(NoDescription, LiteralAt(ts, i)), i + 1);
    assert ExpectAt(ts, i + 1, Colon) == Ok(Colon, i + 2);
  }

  /** `(a: String! "b description" b: Int """c description""" c: Float)` from index `p`, the `(`. */
  predicate ArgumentsDefinitionKinds(ts: seq<Token>, p: nat) {
    && KindAt(ts, p) == BracketOpen
    && KindAt(ts, p + 1) == Ident && KindAt(ts, p + 2) == Colon && KindAt(ts, p + 3) == Ident && KindAt(ts, p + 4) == Bang
    && KindAt(ts, p + 5) == String && KindAt(ts, p + 6) == Ident && KindAt(ts, p + 7) == Colon && KindAt(ts, p + 8) == Ident
    && KindAt(ts, p + 9) == BlockString && KindAt(ts, p + 10) == Ident && KindAt(ts, p + 11) == Colon && KindAt(ts, p + 12) == Ident
    && KindAt(ts, p + 13) == BracketClose
  }

  /** The arguments after the `(` at `p`: `a` of type `String!`, `b` described by a string, `c` by a block string. */
  function ArgumentDefinitionsFrom(ts: seq<Token>, p: nat): seq<InputValueTree> {
    [NonNullArgumentAt(ts, p + 1), DescribedArgumentAt(ts, p + 5, false), DescribedArgumentAt(ts, p + 9, true)]
  }

  /** The arguments definition holds the three input values in order, with their descriptions kept raw. */
  lemma ArgumentsDefinitionInOrder(ts: seq<Token>, p: nat)
    requires p + 14 <= |ts| && ArgumentsDefinitionKinds(ts, p)
    ensures ArgumentsDefinitionAt(ts, p) == Ok(ArgumentDefinitionsFrom(ts, p), p + 14)
  {
    NonNullInputValue(ts, p + 1);
    DescribedInputValue(ts, p + 5, false);
    DescribedInputValue(ts, p + 9, true);
    InputValuesThree(ts, p + 1, BracketClose, NonNullArgumentAt(ts, p + 1), p + 5, DescribedArgumentAt(ts, p + 5, false), p + 9,
                     DescribedArgumentAt(ts, p + 9, true), p + 13);
  }

  /** A field definition that starts with a quoted description and a name: the rest is read with both. */
  lemma StringDescribedField(ts: seq<Token>, i: nat)
    requires i <= |ts| && KindAt(ts, i) == String && KindAt(ts, i + 1) == Ident
    ensures FieldDefinitionAt(ts, i) == FieldDefinitionArgumentsAt(ts, i + 2, Described(false, LiteralAt(ts, i)), LiteralAt(ts, i + 1))
  {
    assert DescribedNameAt(ts, i) == Ok(DescribedName(Described(false, LiteralAt(ts, i)), LiteralAt(ts, i + 1)), i + 2);
  }

  /** A field's arguments definition ending at `m`, then its `: Type …` from `m`. */
  lemma FieldArgumentsThenType(ts: seq<Token>, k: nat, d: DescriptionTree, name: string, args: seq<InputValueTree>, m: nat,
                               f: FieldDefinitionTree, n: nat)
    requires k <= |ts| && ArgumentsDefinitionAt(ts, k) == Ok(args, m) && FieldDefinitionColonAt(ts, m, d, name, args) == Ok(f, n)
    ensures FieldDefinitionArgumentsAt(ts, k, d, name) == Ok(f, n)
  {}

  /** After a field's arguments: `: Type` with a bare named type, no `!` and no directives. */
  lemma TypedFieldAfterArguments(ts: seq<Token>, k: nat, d: DescriptionTree, name: string, args: seq<InputValueTree>)
    requires k <= |ts| && KindAt(ts, k) == Colon && KindAt(ts, k + 1) == Ident
    requires KindAt(ts, k + 2) != Bang && KindAt(ts, k + 2) != At
    ensures FieldDefinitionColonAt(ts, k, d, name, args)
         == Ok(FieldDefinitionTree(d, name, args, NamedT(LiteralAt(ts, k + 1)), []), k + 2)
  {
    var f := FieldDefinitionTree(d, name, args, NamedT(LiteralAt(ts, k + 1)), []);
    assert TypeAt(ts, k + 1) == Ok(NamedT(LiteralAt(ts, k + 1)), k + 2);
    assert DirectivesAt(ts, k + 2) == Ok([], k + 2);
    assert FieldDefinitionTypedAt(ts, k + 1, d, name, args) == Ok(f, k + 2);
  }

  /** `type Person { "name description" name(…): String }` from index `i`, with the arguments of ArgumentsDefinitionKinds. */
  predicate DescribedFieldWithArgumentsKinds(ts: seq<Token>, i: nat) {
    && KindAt(ts, i) == Type && KindAt(ts, i + 1) == Ident && KindAt(ts, i + 2) == CurlyBracketOpen
    && KindAt(ts, i + 3) == String && KindAt(ts, i + 4) == Ident && ArgumentsDefinitionKinds(ts, i + 5)
    && KindAt(ts, i + 19) == Colon && KindAt(ts, i + 20) == Ident && KindAt(ts, i + 21) == CurlyBracketClose
  }

  /** The field `"name description" name(…): String` of the type at `i`: its string description, its three arguments and its type. */
  function DescribedFieldWithArguments(ts: seq<Token>, i: nat): FieldDefinitionTree {
    FieldDefinitionTree(Described(false, LiteralAt(ts, i + 3)), LiteralAt(ts, i + 4), ArgumentDefinitionsFrom(ts, i + 5),
                        NamedT(LiteralAt(ts, i + 20)), [])
  }

  /** The field whose tokens run from `i + 3` to `i + 20` carries the description, the arguments and the type. */
  lemma FieldWithArgumentsDefinition(ts: seq<Token>, i: nat)
    requires i + 22 <= |ts| && DescribedFieldWithArgumentsKinds(ts, i)
    ensures FieldDefinitionAt(ts, i + 3) == Ok(DescribedFieldWithArguments(ts, i), i + 21)
  {
    var d, name, args := Described(false, LiteralAt(ts, i + 3)), LiteralAt(ts, i + 4), ArgumentDefinitionsFrom(ts, i + 5);
    StringDescribedField(ts, i + 3);
    ArgumentsDefinitionInOrder(ts, i + 5);
    TypedFieldAfterArguments(ts, i + 19, d, name, args);
    FieldArgumentsThenType(ts, i + 5, d, name, args, i + 19, FieldDefinitionTree(d, name, args, NamedT(LiteralAt(ts, i + 20)), []), i + 21);
  }

  /** The fields definition `{ "name description" name(…): String }` at `i + 2` holds that one field. */
  lemma FieldWithArgumentsOnly(ts: seq<Token>, i: nat)
    requires i + 22 <= |ts| && DescribedFieldWithArgumentsKinds(ts, i)
    ensures FieldsDefinitionAt(ts, i + 2) == Ok([DescribedFieldWithArguments(ts, i)], i + 22)
  {
    var f := DescribedFieldWithArguments(ts, i);
    FieldWithArgumentsDefinition(ts, i);
    FieldsOne(ts, i + 3, f, i + 21);
  }

  /** The object type at `i` whose one field is the described field with arguments. */
  function ObjectWithArgumentsAt(ts: seq<Token>, i: nat): DefinitionTree {
    ObjectT(false, NoDescription, LiteralAt(ts, i + 1), [], [], [DescribedFieldWithArguments(ts, i)])
  }

  /** `type Person { "name description" name(…): String }` from `i`: no interfaces, no directives, the one field. */
  lemma ObjectWithArgumentsField(ts: seq<Token>, i: nat)
    requires i + 22 <= |ts| && DescribedFieldWithArgumentsKinds(ts, i)
    ensures TypeSystemDefinitionAt(ts, i, NoDescription, false) == Ok(ObjectWithArgumentsAt(ts, i), i + 22)
  {
    var t := ObjectWithArgumentsAt(ts, i);
    FieldWithArgumentsOnly(ts, i);
    assert DirectivesAt(ts, i + 2) == Ok([], i + 2);
    assert ObjectTypeBodyAt(ts, i + 2, NoDescription, false, LiteralAt(ts, i + 1), []) == Ok(t, i + 22);
    assert ObjectTypeAt(ts, i, NoDescription, false) == Ok(t, i + 22);
  }

  /**
   * `type Person { "name description" name(a: String! "b description" b: Int
   * """c description""" c: Float): String }`: one object type whose one field
   * has a string description and three arguments in order.
   */
  lemma InputValueDefinitionList(ts: seq<Token>)
    requires |ts| == 22 && DescribedFieldWithArgumentsKinds(ts, 0)
    ensures DocumentAt(ts, 0) == Ok([ObjectWithArgumentsAt(ts, 0)], 22)
  {
    TypeDefinitionFirst(ts, 0);
    ObjectWithArgumentsField(ts, 0);
    OneDefinition(ts);
  }

  // ------------------------------------------------------------ interfaces

  /** `interface NamedEntity @foo { name: String }`: its name, its directive and its one field. */
  lemma InterfaceDefinition(ts: seq<Token>)
    requires |ts| == 9 && KindAt(ts, 0) == Interface && KindAt(ts, 1) == Ident
    requires KindAt(ts, 2) == At && KindAt(ts, 3) == Ident && OneFieldKinds(ts, 4)
    ensures DocumentAt(ts, 0)
         == Ok([InterfaceT(false, NoDescription, LiteralAt(ts, 1), [DirectiveTree(LiteralAt(ts, 3), [])], [PlainFieldAt(ts, 5)])], 9)
  {
    TypeDefinitionFirst(ts, 0);
    var t := InterfaceT(false, NoDescription, LiteralAt(ts, 1), [DirectiveTree(LiteralAt(ts, 3), [])], [PlainFieldAt(ts, 5)]);
    BareDirective(ts, 2);
    OneFieldDefinition(ts, 4);
    assert InterfaceTypeAt(ts, 0, NoDescription, false) == Ok(t, 9);
    assert TypeSystemDefinitionAt(ts, 0, NoDescription, false) == Ok(t, 9);
    OneDefinition(ts);
  }

  /** `extend interface NamedEntity @foo { name: String }`: the same interface, as an extension. */
  lemma InterfaceTypeExtension(ts: seq<Token>)
    requires |ts| == 10 && KindAt(ts, 0) == Extend && KindAt(ts, 1) == Interface && KindAt(ts, 2) == Ident
    requires KindAt(ts, 3) == At && KindAt(ts, 4) == Ident && OneFieldKinds(ts, 5)
    ensures DocumentAt(ts, 0)
         == Ok([InterfaceT(true, NoDescription, LiteralAt(ts, 2), [DirectiveTree(LiteralAt(ts, 4), [])], [PlainFieldAt(ts, 6)])], 10)
  {
    TypeExtensionFirst(ts, 0);
    var t := InterfaceT(true, NoDescription, LiteralAt(ts, 2), [DirectiveTree(LiteralAt(ts, 4), [])], [PlainFieldAt(ts, 6)]);
    BareDirective(ts, 3);
    OneFieldDefinition(ts, 5);
    assert InterfaceTypeAt(ts, 1, NoDescription, true) == Ok(t, 10);
    assert TypeSystemDefinitionAt(ts, 1, NoDescription, true) == Ok(t, 10);
    OneDefinition(ts);
  }

  /** `"describes NamedEntity" interface NamedEntity { name: String }`: the description belongs to the interface. */
  lemma DescribedInterface(ts: seq<Token>)
    requires |ts| == 8 && KindAt(ts, 0) == String && KindAt(ts, 1) == Interface
    requires KindAt(ts, 2) == Ident && OneFieldKinds(ts, 3)
    ensures DocumentAt(ts, 0)
         == Ok([InterfaceT(false, Described(false, LiteralAt(ts, 0)), LiteralAt(ts, 2), [], [PlainFieldAt(ts, 4)])], 8)
  {
    var d := Described(false, LiteralAt(ts, 0));
    var t := InterfaceT(false, d, LiteralAt(ts, 2), [], [PlainFieldAt(ts, 4)]);
    OneFieldDefinition(ts, 3);
    assert DirectivesAt(ts, 3) == Ok([], 3);
    assert InterfaceTypeAt(ts, 1, d, false) == Ok(t, 8);
    assert DefinitionAt(ts, 0) == Ok(t, |ts|);
    OneDefinition(ts);
  }

  // ------------------------------------------------- scalar and union types

  /** `scalar JSON @foo`: a scalar keeps its directive. */
  lemma ScalarWithDirective(ts: seq<Token>)
    requires |ts| == 4 && KindAt(ts, 0) == Keyword.Scalar && KindAt(ts, 1) == Ident
    requires KindAt(ts, 2) == At && KindAt(ts, 3) == Ident
    ensures DocumentAt(ts, 0) == Ok([ScalarT(false, NoDescription, LiteralAt(ts, 1), [DirectiveTree(LiteralAt(ts, 3), [])])], 4)
  {
    TypeDefinitionFirst(ts, 0);
    var t := ScalarT(false, NoDescription, LiteralAt(ts, 1), [DirectiveTree(LiteralAt(ts, 3), [])]);
    BareDirective(ts, 2);
    assert ScalarTypeAt(ts, 0, NoDescription, false) == Ok(t, 4);
    assert TypeSystemDefinitionAt(ts, 0, NoDescription, false) == Ok(t, 4);
    OneDefinition(ts);
  }

  /** `extend scalar JSON @foo`: a scalar type extension with its directive. */
  lemma ScalarTypeExtension(ts: seq<Token>)
    requires |ts| == 5 && KindAt(ts, 0) == Extend && KindAt(ts, 1) == Keyword.Scalar && KindAt(ts, 2) == Ident
    requires KindAt(ts, 3) == At && KindAt(ts, 4) == Ident
    ensures DocumentAt(ts, 0) == Ok([ScalarT(true, NoDescription, LiteralAt(ts, 2), [DirectiveTree(LiteralAt(ts, 4), [])])], 5)
  {
    TypeExtensionFirst(ts, 0);
    var t := ScalarT(true, NoDescription, LiteralAt(ts, 2), [DirectiveTree(LiteralAt(ts, 4), [])]);
    BareDirective(ts, 3);
    assert ScalarTypeAt(ts, 1, NoDescription, true) == Ok(t, 5);
    assert TypeSystemDefinitionAt(ts, 1, NoDescription, true) == Ok(t, 5);
    OneDefinition(ts);
  }

  /** `extend union SearchResult = Photo | Person`: exactly the two member types, in order. */
  lemma UnionTypeExtension(ts: seq<Token>)
    requires |ts| == 7 && KindAt(ts, 0) == Extend && KindAt(ts, 1) == Union && KindAt(ts, 2) == Ident
    requires KindAt(ts, 3) == Equals && KindAt(ts, 4) == Ident && KindAt(ts, 5) == Pipe && KindAt(ts, 6) == Ident
    ensures DocumentAt(ts, 0) == Ok([UnionT(true, NoDescription, LiteralAt(ts, 2), [], [LiteralAt(ts, 4), LiteralAt(ts, 6)])], 7)
  {
    TypeExtensionFirst(ts, 0);
    var members := [LiteralAt(ts, 4), LiteralAt(ts, 6)];
    var t := UnionT(true, NoDescription, LiteralAt(ts, 2), [], members);
    NamesStep(ts, 6, Pipe);
    NamesStep(ts, 4, Pipe);
    assert NamesAfterSeparatorAt(ts, 4, Pipe).value == members;
    assert UnionMembersAt(ts, 3) == Ok(members, 7);
    assert DirectivesAt(ts, 3) == Ok([], 3);
    assert UnionTypeAt(ts, 1, NoDescription, true) == Ok(t, 7);
    assert TypeSystemDefinitionAt(ts, 1, NoDescription, true) == Ok(t, 7);
    OneDefinition(ts);
  }

  // ------------------------------------------------------------ enum types

  /** `@bar { NORTH EAST SOUTH "describes WEST" WEST @foo }` from index `i`. */
  predicate DirectionBodyKinds(ts: seq<Token>, i: nat) {
    && KindAt(ts, i) == At && KindAt(ts, i + 1) == Ident && KindAt(ts, i + 2) == CurlyBracketOpen
    && KindAt(ts, i + 3) == Ident && KindAt(ts, i + 4) == Ident && KindAt(ts, i + 5) == Ident
    && KindAt(ts, i + 6) == String && KindAt(ts, i + 7) == Ident
    && KindAt(ts, i + 8) == At && KindAt(ts, i + 9) == Ident && KindAt(ts, i + 10) == CurlyBracketClose
  }

  /** The enum value `NAME` at `i`, without description or directives. */
  function PlainValueAt(ts: seq<Token>, i: nat): EnumValueTree {
    EnumValueTree(NoDescription, LiteralAt(ts, i), [])
  }

  /** The enum value `"description" NAME @directive` whose tokens start at `j`. */
  function DescribedValueAt(ts: seq<Token>, j: nat): EnumValueTree {
    EnumValueTree(Described(false, LiteralAt(ts, j)), LiteralAt(ts, j + 1), [DirectiveTree(LiteralAt(ts, j + 3), [])])
  }

  /** The four values of `Direction` from index `i`: three plain, then `WEST` with its description and directive. */
  function DirectionValuesFrom(ts: seq<Token>, i: nat): seq<EnumValueTree> {
    [PlainValueAt(ts, i + 3), PlainValueAt(ts, i + 4), PlainValueAt(ts, i + 5), DescribedValueAt(ts, i + 6)]
  }

  /** An enum value `NAME` without description or directives, where no `@` follows. */
  lemma PlainEnumValue(ts: seq<Token>, i: nat)
    requires i <= |ts| && KindAt(ts, i) == Ident && KindAt(ts, i + 1) != At
    ensures EnumValueDefinitionAt(ts, i) == Ok(PlainValueAt(ts, i), i + 1)
  {
    assert DescriptionAt(ts, i) == Parsed(NoDescription, i);
    assert IsName(KindAt(ts, i)) && !IsReservedEnumValue(KindAt(ts, i));
    assert DirectivesAt(ts, i + 1) == Ok([], i + 1);
    assert EnumValueNameAt(ts, i, NoDescription) == Ok(PlainValueAt(ts, i), i + 1);
  }

  /** An enum value `"description" NAME @directive`, where nothing more follows the directive's name. */
  lemma DescribedEnumValue(ts: seq<Token>, i: nat)
    requires i <= |ts| && KindAt(ts, i) == String && KindAt(ts, i + 1) == Ident && KindAt(ts, i + 2) == At
    requires KindAt(ts, i + 3) == Ident && KindAt(ts, i + 4) == CurlyBracketClose
    ensures EnumValueDefinitionAt(ts, i) == Ok(DescribedValueAt(ts, i), i + 4)
  {
    BareDirective(ts, i + 2);
  }

  /** The values of `Direction`, in order; only `WEST` is described and carries a directive. */
  lemma DirectionValuesInOrder(ts: seq<Token>, i: nat)
    requires i + 11 <= |ts| && DirectionBodyKinds(ts, i)
    ensures EnumValuesDefinitionAt(ts, i + 2) == Ok(DirectionValuesFrom(ts, i), i + 11)
  {
    DirectionOtherValues(ts, i);
    PlainEnumValue(ts, i + 3);
    EnumValueDefinitionsStep(ts, i + 3);
    Prepend(PlainValueAt(ts, i + 3), [PlainValueAt(ts, i + 4), PlainValueAt(ts, i + 5), DescribedValueAt(ts, i + 6)]);
  }

  /** The values of `Direction` after `NORTH`. */
  lemma DirectionOtherValues(ts: seq<Token>, i: nat)
    requires i + 11 <= |ts| && DirectionBodyKinds(ts, i)
    ensures EnumValueDefinitionsAt(ts, i + 4) == Ok([PlainValueAt(ts, i + 4), PlainValueAt(ts, i + 5), DescribedValueAt(ts, i + 6)], i + 11)
  {
    DirectionLastValues(ts, i);
    PlainEnumValue(ts, i + 4);
    EnumValueDefinitionsStep(ts, i + 4);
    Prepend(PlainValueAt(ts, i + 4), [PlainValueAt(ts, i + 5), DescribedValueAt(ts, i + 6)]);
  }

  /** A last enum value `"description" NAME @directive` and the `}` after it. */
  lemma DescribedLastEnumValue(ts: seq<Token>, j: nat)
    requires j <= |ts| && KindAt(ts, j) == String && KindAt(ts, j + 1) == Ident && KindAt(ts, j + 2) == At
    requires KindAt(ts, j + 3) == Ident && KindAt(ts, j + 4) == CurlyBracketClose
    ensures EnumValueDefinitionsAt(ts, j) == Ok([DescribedValueAt(ts, j)], j + 5)
  {
    DescribedEnumValue(ts, j);
    assert EnumValueDefinitionsAt(ts, j + 4) == Ok([], j + 5);
    EnumValueDefinitionsStep(ts, j);
    Prepend(DescribedValueAt(ts, j), []);
  }

  /** The last two values of `Direction`: `SOUTH`, then the described `WEST @foo`, then the `}`. */
  lemma DirectionLastValues(ts: seq<Token>, i: nat)
    requires i + 11 <= |ts| && DirectionBodyKinds(ts, i)
    ensures EnumValueDefinitionsAt(ts, i + 5) == Ok([PlainValueAt(ts, i + 5), DescribedValueAt(ts, i + 6)], i + 11)
  {
    DescribedLastEnumValue(ts, i + 6);
    PlainEnumValue(ts, i + 5);
    EnumValueDefinitionsStep(ts, i + 5);
    Prepend(PlainValueAt(ts, i + 5), [DescribedValueAt(ts, i + 6)]);
  }

  /** The enum `Direction` whose `enum` keyword is at `i`, with description `d`, as a definition or an extension. */
  function DirectionEnumAt(ts: seq<Token>, i: nat, d: DescriptionTree, extension: bool): DefinitionTree {
    EnumT(extension, d, LiteralAt(ts, i + 1), [DirectiveTree(LiteralAt(ts, i + 3), [])], DirectionValuesFrom(ts, i + 2))
  }

  /** `enum Direction @bar { … }` from index `i`: its name, its directive and its four values in order. */
  lemma DirectionEnumType(ts: seq<Token>, i: nat, d: DescriptionTree, extension: bool)
    requires i + 13 <= |ts| && KindAt(ts, i) == Enum && KindAt(ts, i + 1) == Ident && DirectionBodyKinds(ts, i + 2)
    ensures TypeSystemDefinitionAt(ts, i, d, extension) == Ok(DirectionEnumAt(ts, i, d, extension), i + 13)
  {
    BareDirective(ts, i + 2);
    DirectionValuesInOrder(ts, i + 2);
    assert EnumTypeAt(ts, i, d, extension) == Ok(DirectionEnumAt(ts, i, d, extension), i + 13);
  }

  /** `"enums" enum Direction @bar { NORTH EAST SOUTH "describes WEST" WEST @foo }`: a described enum with four values. */
  lemma EnumDefinition(ts: seq<Token>)
    requires |ts| == 14 && KindAt(ts, 0) == String && KindAt(ts, 1) == Enum && KindAt(ts, 2) == Ident
    requires DirectionBodyKinds(ts, 3)
    ensures DocumentAt(ts, 0) == Ok([DirectionEnumAt(ts, 1, Described(false, LiteralAt(ts, 0)), false)], 14)
  {
    var d := Described(false, LiteralAt(ts, 0));
    DirectionEnumType(ts, 1, d, false);
    assert DefinitionAt(ts, 0) == Ok(DirectionEnumAt(ts, 1, d, false), |ts|);
    OneDefinition(ts);
  }

  /** `extend enum Direction @bar { NORTH EAST SOUTH "describes WEST" WEST @foo }`: the same values, as an extension. */
  lemma EnumTypeExtension(ts: seq<Token>)
    requires |ts| == 14 && KindAt(ts, 0) == Extend && KindAt(ts, 1) == Enum && KindAt(ts, 2) == Ident
    requires DirectionBodyKinds(ts, 3)
    ensures DocumentAt(ts, 0) == Ok([DirectionEnumAt(ts, 1, NoDescription, true)], 14)
  {
    TypeExtensionFirst(ts, 0);
    DirectionEnumType(ts, 1, NoDescription, true);
    OneDefinition(ts);
  }

  // ---------------------------------------------------- input object types

  /** `{ name: String = "Gopher" }` from index `i`, the `{` included. */
  predicate DefaultedFieldKinds(ts: seq<Token>, i: nat) {
    && KindAt(ts, i) == CurlyBracketOpen && KindAt(ts, i + 1) == Ident && KindAt(ts, i + 2) == Colon
    && KindAt(ts, i + 3) == Ident && KindAt(ts, i + 4) == Equals && KindAt(ts, i + 5) == String
    && KindAt(ts, i + 6) == CurlyBracketClose
  }

  /** The input field `name: String = "Gopher"` whose tokens start at `i`. */
  function DefaultedFieldAt(ts: seq<Token>, i: nat): InputValueTree {
    InputValueTree(NoDescription, LiteralAt(ts, i), NamedT(LiteralAt(ts, i + 2)), Some(StringV(false, LiteralAt(ts, i + 4))), [])
  }

  /** An input value `name: Type = "string"` without description or directives, where no `@` follows. */
  lemma DefaultedInputValue(ts: seq<Token>, i: nat)
    requires i <= |ts| && KindAt(ts, i) == Ident && KindAt(ts, i + 1) == Colon && KindAt(ts, i + 2) == Ident
    requires KindAt(ts, i + 3) == Equals && KindAt(ts, i + 4) == String && KindAt(ts, i + 5) != At
    ensures InputValueDefinitionAt(ts, i) == Ok(DefaultedFieldAt(ts, i), i + 5)
  {
    var f := DefaultedFieldAt(ts, i);
    assert TypeAt(ts, i + 2) == Ok(NamedT(LiteralAt(ts, i + 2)), i + 3);
    assert DefaultValueAt(ts, i + 3) == Ok(Some(StringV(false, LiteralAt(ts, i + 4))), i + 5);
    assert DirectivesAt(ts, i + 5) == Ok([], i + 5);
    assert InputValueFinishAt(ts, i + 3, NoDescription, LiteralAt(ts, i), NamedT(LiteralAt(ts, i + 2))) == Ok(f, i + 5);
    assert InputValueTypedAt(ts, i + 2, NoDescription, LiteralAt(ts, i)) == Ok(f, i + 5);
    assert DescribedNameAt(ts, i) == Ok(DescribedName(NoDescription, LiteralAt(ts, i)), i + 1);
    assert ExpectAt(ts, i + 1, Colon) == Ok(Colon, i + 2);
  }

  /** The input fields `{ name: String = "Gopher" }`: one field whose default value is the string. */
  lemma DefaultedFieldOnly(ts: seq<Token>, i: nat)
    requires i + 7 <= |ts| && DefaultedFieldKinds(ts, i)
    ensures InputFieldsDefinitionAt(ts, i) == Ok([DefaultedFieldAt(ts, i + 1)], i + 7)
  {
    var f := DefaultedFieldAt(ts, i + 1);
    DefaultedInputValue(ts, i + 1);
    assert InputValueDefinitionsAt(ts, i + 6, CurlyBracketClose) == Ok([], i + 7);
    InputValueDefinitionsStep(ts, i + 1, CurlyBracketClose);
    assert InputValueDefinitionsAt(ts, i + 1, CurlyBracketClose).value == [f];
  }

  /** `input Person { name: String = "Gopher" }` from index `i`, as a definition or an extension. */
  lemma InputObjectWithDefaultedField(ts: seq<Token>, i: nat, extension: bool)
    requires i + 9 <= |ts| && KindAt(ts, i) == Input && KindAt(ts, i + 1) == Ident && DefaultedFieldKinds(ts, i + 2)
    ensures InputObjectTypeAt(ts, i, NoDescription, extension)
         == Ok(InputObjectT(extension, NoDescription, LiteralAt(ts, i + 1), [], [DefaultedFieldAt(ts, i + 3)]), i + 9)
  {
    DefaultedFieldOnly(ts, i + 2);
    assert DirectivesAt(ts, i + 2) == Ok([], i + 2);
  }

  /** `input Person { name: String = "Gopher" }`: an input object with one defaulted field. */
  lemma InputObjectDefinition(ts: seq<Token>)
    requires |ts| == 9 && KindAt(ts, 0) == Input && KindAt(ts, 1) == Ident && DefaultedFieldKinds(ts, 2)
    ensures DocumentAt(ts, 0) == Ok([InputObjectT(false, NoDescription, LiteralAt(ts, 1), [], [DefaultedFieldAt(ts, 3)])], 9)
  {
    TypeDefinitionFirst(ts, 0);
    var t := InputObjectT(false, NoDescription, LiteralAt(ts, 1), [], [DefaultedFieldAt(ts, 3)]);
    InputObjectWithDefaultedField(ts, 0, false);
    assert TypeSystemDefinitionAt(ts, 0, NoDescription, false) == Ok(t, 9);
    OneDefinition(ts);
  }

  /** `extend input Person { name: String = "Gopher" }`: the same input object, as an extension. */
  lemma InputObjectTypeExtension(ts: seq<Token>)
    requires |ts| == 10 && KindAt(ts, 0) == Extend && KindAt(ts, 1) == Input && KindAt(ts, 2) == Ident
    requires DefaultedFieldKinds(ts, 3)
    ensures DocumentAt(ts, 0) == Ok([InputObjectT(true, NoDescription, LiteralAt(ts, 2), [], [DefaultedFieldAt(ts, 4)])], 10)
  {
    TypeExtensionFirst(ts, 0);
    var t := InputObjectT(true, NoDescription, LiteralAt(ts, 2), [], [DefaultedFieldAt(ts, 4)]);
    InputObjectWithDefaultedField(ts, 1, true);
    assert TypeSystemDefinitionAt(ts, 1, NoDescription, true) == Ok(t, 10);
    OneDefinition(ts);
  }
}

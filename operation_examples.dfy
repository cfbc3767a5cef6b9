/**
 * The parser's test cases for operation definitions, selection sets, inline
 * fragments and fragment definitions. Each is stated for every token stream
 * whose tokens have the keywords the lexer produces for the test's input;
 * the names in the result are the texts of the tokens at the positions the
 * lemma gives. The building blocks in between hold for any token that can
 * stand for a Name.
 */
module OperationExamples {
  import opened Wrappers
  import opened Tokens
  import opened Syntax
  import opened Grammar
  import opened ParserExamples
  import opened DefinitionExamples

  // ----------------------------------------------------------------- fields

  /** The field `name` at `i`: no alias, arguments, directives or selections. */
  function LeafAt(ts: seq<Token>, i: nat): SelectionTree {
    FieldT(None, LiteralAt(ts, i), [], [], Leaf)
  }

  /** The field `name { … }` at `i` whose selection set holds `selections`. */
  function NestedAt(ts: seq<Token>, i: nat, selections: seq<SelectionTree>): SelectionTree {
    FieldT(None, LiteralAt(ts, i), [], [], Nested(selections))
  }

  /** A name followed by none of `:`, `(`, `@` and `{` is a leaf field. */
  lemma LeafField(ts: seq<Token>, i: nat)
    requires i <= |ts| && IsName(KindAt(ts, i))
    requires KindAt(ts, i + 1) !in {Colon, BracketOpen, At, CurlyBracketOpen}
    ensures SelectionAt(ts, i) == Ok(LeafAt(ts, i), i + 1)
  {
    assert FieldNameAt(ts, i) == Ok(FieldName(None, LiteralAt(ts, i)), i + 1);
    assert ArgumentsAt(ts, i + 1) == Ok([], i + 1);
    assert DirectivesAt(ts, i + 1) == Ok([], i + 1);
    assert FieldBodyAt(ts, i + 1, None, LiteralAt(ts, i), [], []) == Ok(LeafAt(ts, i), i + 1);
    assert FieldAfterNameAt(ts, i + 1, None, LiteralAt(ts, i)) == Ok(LeafAt(ts, i), i + 1);
  }

  /** A name followed by a selection set is a field holding that set. */
  lemma NestedField(ts: seq<Token>, i: nat, selections: seq<SelectionTree>, n: nat)
    requires i + 1 < |ts| && IsName(KindAt(ts, i)) && KindAt(ts, i + 1) == CurlyBracketOpen
    requires SelectionSetAt(ts, i + 1) == Ok(selections, n)
    ensures SelectionAt(ts, i) == Ok(NestedAt(ts, i, selections), n)
  {
    assert FieldNameAt(ts, i) == Ok(FieldName(None, LiteralAt(ts, i)), i + 1);
    assert ArgumentsAt(ts, i + 1) == Ok([], i + 1);
    assert DirectivesAt(ts, i + 1) == Ok([], i + 1);
    assert FieldBodyAt(ts, i + 1, None, LiteralAt(ts, i), [], []) == Ok(NestedAt(ts, i, selections), n);
    assert FieldAfterNameAt(ts, i + 1, None, LiteralAt(ts, i)) == Ok(NestedAt(ts, i, selections), n);
  }

  // --------------------------------------------------------- selection lists

  /** A selection followed by further selections up to the `}`. */
  lemma SelectionThen(ts: seq<Token>, i: nat, s: SelectionTree, j: nat, rest: seq<SelectionTree>, n: nat)
    requires i <= |ts| && j <= |ts| && KindAt(ts, i) != CurlyBracketClose
    requires SelectionAt(ts, i) == Ok(s, j) && SelectionsAt(ts, j) == Ok(rest, n)
    ensures SelectionsAt(ts, i) == Ok([s] + rest, n)
  {
    SelectionsStep(ts, i);
  }

  /** `{ selection }`: a selection set holding exactly one selection. */
  lemma SoleSelection(ts: seq<Token>, i: nat, s: SelectionTree, n: nat)
    requires n < |ts| && KindAt(ts, i) == CurlyBracketOpen && KindAt(ts, i + 1) != CurlyBracketClose
    requires SelectionAt(ts, i + 1) == Ok(s, n) && KindAt(ts, n) == CurlyBracketClose
    ensures SelectionSetAt(ts, i) == Ok([s], n + 1)
  {
    assert SelectionsAt(ts, n) == Ok([], n + 1);
    SelectionThen(ts, i + 1, s, n, [], n + 1);
    assert [s] + [] == [s];
  }

  /** A last selection `name`, and the `}` after it. */
  lemma LastLeaf(ts: seq<Token>, i: nat)
    requires i <= |ts| && IsName(KindAt(ts, i)) && KindAt(ts, i + 1) == CurlyBracketClose
    ensures SelectionsAt(ts, i) == Ok([LeafAt(ts, i)], i + 2)
  {
    LeafField(ts, i);
    assert SelectionsAt(ts, i + 1) == Ok([], i + 2);
    SelectionThen(ts, i, LeafAt(ts, i), i + 1, [], i + 2);
    assert [LeafAt(ts, i)] + [] == [LeafAt(ts, i)];
  }

  /** `{ name }`: a selection set holding one leaf field. */
  lemma LeafBlock(ts: seq<Token>, i: nat)
    requires i <= |ts| && KindAt(ts, i) == CurlyBracketOpen && IsName(KindAt(ts, i + 1))
    requires KindAt(ts, i + 2) == CurlyBracketClose
    ensures SelectionSetAt(ts, i) == Ok([LeafAt(ts, i + 1)], i + 3)
  {
    LastLeaf(ts, i + 1);
  }

  /** `name { leaf }` at `i`, the last selection of the set around it. */
  lemma LastNestedLeaf(ts: seq<Token>, i: nat)
    requires i <= |ts| && IsName(KindAt(ts, i)) && KindAt(ts, i + 1) == CurlyBracketOpen && IsName(KindAt(ts, i + 2))
    requires KindAt(ts, i + 3) == CurlyBracketClose && KindAt(ts, i + 4) == CurlyBracketClose
    ensures SelectionsAt(ts, i) == Ok([NestedAt(ts, i, [LeafAt(ts, i + 2)])], i + 5)
  {
    LeafBlock(ts, i + 1);
    NestedField(ts, i, [LeafAt(ts, i + 2)], i + 4);
    assert SelectionsAt(ts, i + 4) == Ok([], i + 5);
    SelectionThen(ts, i, NestedAt(ts, i, [LeafAt(ts, i + 2)]), i + 4, [], i + 5);
    assert [NestedAt(ts, i, [LeafAt(ts, i + 2)])] + [] == [NestedAt(ts, i, [LeafAt(ts, i + 2)])];
  }

  // ------------------------------------------------------------- operations

  /** A definition that starts with an operation keyword or `{` is an operation. */
  lemma OperationFirst(ts: seq<Token>, i: nat)
    requires i <= |ts| && KindAt(ts, i) in {Query, Mutation, Subscription, CurlyBracketOpen}
    ensures DefinitionAt(ts, i) == OperationDefinitionAt(ts, i)
  {
    assert !DescriptionAt(ts, i).value.Described?;
    assert UndescribedDefinitionAt(ts, i) == OperationDefinitionAt(ts, i);
  }

  /** An operation keyword followed by a name: the operation is named, and its rest follows the name. */
  lemma NamedOperationHead(ts: seq<Token>, i: nat)
    requires i <= |ts| && KindAt(ts, i) in {Query, Mutation, Subscription} && IsName(KindAt(ts, i + 1))
    ensures OperationDefinitionAt(ts, i) == OperationAfterNameAt(ts, i + 2, OperationOf(KindAt(ts, i)).value, LiteralAt(ts, i + 1))
  {
    assert OperationHeadAt(ts, i) == Ok(OperationHead(OperationOf(KindAt(ts, i)).value, LiteralAt(ts, i + 1)), i + 2);
  }

  /** An operation with neither variables nor directives: its selection set follows its name. */
  lemma SelectionsOnly(ts: seq<Token>, i: nat, operation: OperationKind, name: string, selections: seq<SelectionTree>, n: nat)
    requires i <= |ts| && KindAt(ts, i) == CurlyBracketOpen && SelectionSetAt(ts, i) == Ok(selections, n)
    ensures OperationAfterNameAt(ts, i, operation, name) == Ok(OperationT(operation, name, [], [], selections), n)
  {
    assert DirectivesAt(ts, i) == Ok([], i);
    assert OperationBodyAt(ts, i, operation, name, []) == Ok(OperationT(operation, name, [], [], selections), n);
  }

  /** An operation with variables but no directives: its selection set follows the variable list. */
  lemma VariablesThenSelections(ts: seq<Token>, i: nat, operation: OperationKind, name: string,
                                vars: seq<VariableDefinitionTree>, j: nat, selections: seq<SelectionTree>, n: nat)
    requires i <= |ts| && j <= |ts| && KindAt(ts, i) == BracketOpen && VariableDefinitionListAt(ts, i) == Ok(vars, j)
    requires KindAt(ts, j) == CurlyBracketOpen && SelectionSetAt(ts, j) == Ok(selections, n)
    ensures OperationAfterNameAt(ts, i, operation, name) == Ok(OperationT(operation, name, vars, [], selections), n)
  {
    assert DirectivesAt(ts, j) == Ok([], j);
    assert OperationBodyAt(ts, j, operation, name, vars) == Ok(OperationT(operation, name, vars, [], selections), n);
  }

  /**
   * `query {field}`, `mutation {field}` and `subscription {field}`: an
   * operation of the keyword's type whose name is empty and whose one
   * selection is the field.
   */
  lemma UnnamedOperation(ts: seq<Token>)
    requires |ts| == 4 && KindAt(ts, 0) in {Query, Mutation, Subscription}
    requires KindAt(ts, 1) == CurlyBracketOpen && KindAt(ts, 2) == Ident && KindAt(ts, 3) == CurlyBracketClose
    ensures DocumentAt(ts, 0) == Ok([OperationT(OperationOf(KindAt(ts, 0)).value, "", [], [], [LeafAt(ts, 2)])], 4)
  {
    var operation := OperationOf(KindAt(ts, 0)).value;
    OperationFirst(ts, 0);
    LeafBlock(ts, 1);
    assert OperationHeadAt(ts, 0) == Ok(OperationHead(operation, ""), 1);
    SelectionsOnly(ts, 1, operation, "", [LeafAt(ts, 2)], 4);
    assert OperationDefinitionAt(ts, 0) == Ok(OperationT(operation, "", [], [], [LeafAt(ts, 2)]), 4);
    OneDefinition(ts);
  }

  /** `query Query1 {field}`, and likewise for mutations and subscriptions: the operation carries its name. */
  lemma NamedOperation(ts: seq<Token>)
    requires |ts| == 5 && KindAt(ts, 0) in {Query, Mutation, Subscription} && KindAt(ts, 1) == Ident
    requires KindAt(ts, 2) == CurlyBracketOpen && KindAt(ts, 3) == Ident && KindAt(ts, 4) == CurlyBracketClose
    ensures DocumentAt(ts, 0)
         == Ok([OperationT(OperationOf(KindAt(ts, 0)).value, LiteralAt(ts, 1), [], [], [LeafAt(ts, 3)])], 5)
  {
    var operation := OperationOf(KindAt(ts, 0)).value;
    OperationFirst(ts, 0);
    LeafBlock(ts, 2);
    NamedOperationHead(ts, 0);
    SelectionsOnly(ts, 2, operation, LiteralAt(ts, 1), [LeafAt(ts, 3)], 5);
    OneDefinition(ts);
  }

  /** The shorthand `{field}` is a query whose name is empty. */
  lemma ShorthandQuery(ts: seq<Token>)
    requires |ts| == 3 && KindAt(ts, 0) == CurlyBracketOpen && KindAt(ts, 1) == Ident && KindAt(ts, 2) == CurlyBracketClose
    ensures DocumentAt(ts, 0) == Ok([OperationT(QueryOp, "", [], [], [LeafAt(ts, 1)])], 3)
  {
    OperationFirst(ts, 0);
    LeafBlock(ts, 0);
    assert DirectivesAt(ts, 0) == Ok([], 0);
    assert OperationBodyAt(ts, 0, QueryOp, "", []) == Ok(OperationT(QueryOp, "", [], [], [LeafAt(ts, 1)]), 3);
    OneDefinition(ts);
  }

  // ------------------------------------------------ complex nested subscription

  /** `($name: Type)` from index `i`: one variable without default value or directives. */
  lemma SingleVariable(ts: seq<Token>, i: nat)
    requires i <= |ts| && KindAt(ts, i) == BracketOpen && KindAt(ts, i + 1) == Dollar
    requires IsName(KindAt(ts, i + 2)) && !SpacedAt(ts, i + 2) && KindAt(ts, i + 3) == Colon
    requires IsName(KindAt(ts, i + 4)) && KindAt(ts, i + 5) == BracketClose
    ensures VariableDefinitionListAt(ts, i)
         == Ok([VariableDefinitionTree(LiteralAt(ts, i + 2), NamedT(LiteralAt(ts, i + 4)), None, [])], i + 6)
  {
    var v := VariableDefinitionTree(LiteralAt(ts, i + 2), NamedT(LiteralAt(ts, i + 4)), None, []);
    assert VariableNameAt(ts, i + 1) == Ok(LiteralAt(ts, i + 2), i + 3);
    assert CoreTypeAt(ts, i + 4) == Ok(NamedT(LiteralAt(ts, i + 4)), i + 5);
    assert TypeAt(ts, i + 4) == Ok(NamedT(LiteralAt(ts, i + 4)), i + 5);
    assert DefaultValueAt(ts, i + 5) == Ok(None, i + 5);
    assert DirectivesAt(ts, i + 5) == Ok([], i + 5);
    assert VariableDefinitionTypedAt(ts, i + 4, LiteralAt(ts, i + 2)) == Ok(v, i + 5);
    assert VariableDefinitionAt(ts, i + 1) == Ok(v, i + 5);
    assert VariableDefinitionItemsAt(ts, i + 5) == Ok([], i + 6);
    VariableDefinitionItemsStep(ts, i + 1);
    assert [v] + [] == [v];
  }

  /** `(name: $variable)` from index `i`: one argument whose value is a variable. */
  lemma VariableArgument(ts: seq<Token>, i: nat)
    requires i <= |ts| && KindAt(ts, i) == BracketOpen && IsName(KindAt(ts, i + 1)) && KindAt(ts, i + 2) == Colon
    requires KindAt(ts, i + 3) == Dollar && IsName(KindAt(ts, i + 4)) && !SpacedAt(ts, i + 4)
    requires KindAt(ts, i + 5) == BracketClose
    ensures ArgumentsAt(ts, i) == Ok([ArgumentTree(LiteralAt(ts, i + 1), VariableV(LiteralAt(ts, i + 4)))], i + 6)
  {
    var a := ArgumentTree(LiteralAt(ts, i + 1), VariableV(LiteralAt(ts, i + 4)));
    assert VariableNameAt(ts, i + 3) == Ok(LiteralAt(ts, i + 4), i + 5);
    assert ValueAt(ts, i + 3) == Ok(VariableV(LiteralAt(ts, i + 4)), i + 5);
    assert ArgumentItemsAt(ts, i + 5) == Ok([], i + 6);
    ArgumentItemsStep(ts, i + 1);
    assert [a] + [] == [a];
  }

  /** The keyword `input` can stand for a Name. */
  lemma InputIsName()
    ensures IsName(Input)
  {}

  /**
   * `subscription StoryLikeSubscription($input: StoryLikeSubscribeInput) {
   * storyLikeSubscribe(input: $input) { story { likers { count } likeSentence
   * { text } } } }`: the token kinds, with the `$` glued to the names after it.
   */
  predicate StorySubscriptionKinds(ts: seq<Token>) {
    && |ts| == 30 && KindAt(ts, 0) == Subscription && KindAt(ts, 1) == Ident
    && KindAt(ts, 2) == BracketOpen && KindAt(ts, 3) == Dollar && KindAt(ts, 4) == Input && !SpacedAt(ts, 4)
    && KindAt(ts, 5) == Colon && KindAt(ts, 6) == Ident && KindAt(ts, 7) == BracketClose
    && KindAt(ts, 8) == CurlyBracketOpen && KindAt(ts, 9) == Ident
    && KindAt(ts, 10) == BracketOpen && KindAt(ts, 11) == Input && KindAt(ts, 12) == Colon
    && KindAt(ts, 13) == Dollar && KindAt(ts, 14) == Input && !SpacedAt(ts, 14) && KindAt(ts, 15) == BracketClose
    && KindAt(ts, 16) == CurlyBracketOpen && KindAt(ts, 17) == Ident && KindAt(ts, 18) == CurlyBracketOpen
    && KindAt(ts, 19) == Ident && KindAt(ts, 20) == CurlyBracketOpen && KindAt(ts, 21) == Ident
    && KindAt(ts, 22) == CurlyBracketClose
    && KindAt(ts, 23) == Ident && KindAt(ts, 24) == CurlyBracketOpen && KindAt(ts, 25) == Ident
    && KindAt(ts, 26) == CurlyBracketClose
    && KindAt(ts, 27) == CurlyBracketClose && KindAt(ts, 28) == CurlyBracketClose && KindAt(ts, 29) == CurlyBracketClose
  }

  /** `story { likers { count } likeSentence { text } }`: one field holding two nested fields. */
  function StoryFrom(ts: seq<Token>): SelectionTree {
    NestedAt(ts, 17, [NestedAt(ts, 19, [LeafAt(ts, 21)]), NestedAt(ts, 23, [LeafAt(ts, 25)])])
  }

  /** The subscription's one field, `storyLikeSubscribe`, with its argument and its selections. */
  function StoryLikeSubscribeFrom(ts: seq<Token>): SelectionTree {
    FieldT(None, LiteralAt(ts, 9), [ArgumentTree(LiteralAt(ts, 11), VariableV(LiteralAt(ts, 14)))], [], Nested([StoryFrom(ts)]))
  }

  /** The selection set of `story`: `likers { count }`, then `likeSentence { text }`. */
  lemma StorySelections(ts: seq<Token>)
    requires StorySubscriptionKinds(ts)
    ensures SelectionSetAt(ts, 18)
         == Ok([NestedAt(ts, 19, [LeafAt(ts, 21)]), NestedAt(ts, 23, [LeafAt(ts, 25)])], 28)
  {
    LastNestedLeaf(ts, 23);
    LeafBlock(ts, 20);
    NestedField(ts, 19, [LeafAt(ts, 21)], 23);
    SelectionThen(ts, 19, NestedAt(ts, 19, [LeafAt(ts, 21)]), 23, [NestedAt(ts, 23, [LeafAt(ts, 25)])], 28);
    assert [NestedAt(ts, 19, [LeafAt(ts, 21)])] + [NestedAt(ts, 23, [LeafAt(ts, 25)])]
        == [NestedAt(ts, 19, [LeafAt(ts, 21)]), NestedAt(ts, 23, [LeafAt(ts, 25)])];
  }

  /** `{ story { … } }` from index 16: the selection set of `storyLikeSubscribe`. */
  lemma StoryBlock(ts: seq<Token>)
    requires StorySubscriptionKinds(ts)
    ensures SelectionSetAt(ts, 16) == Ok([StoryFrom(ts)], 29)
  {
    StorySelections(ts);
    NestedField(ts, 17, StoryFrom(ts).subSelections.selections, 28);
    SoleSelection(ts, 16, StoryFrom(ts), 28);
  }

  /** `{ storyLikeSubscribe(input: $input) { … } }` from index 8: the subscription's selection set. */
  lemma StoryLikeSubscribeBlock(ts: seq<Token>)
    requires StorySubscriptionKinds(ts)
    ensures SelectionSetAt(ts, 8) == Ok([StoryLikeSubscribeFrom(ts)], 30)
  {
    var f := StoryLikeSubscribeFrom(ts);
    InputIsName();
    StoryBlock(ts);
    VariableArgument(ts, 10);
    assert FieldNameAt(ts, 9) == Ok(FieldName(None, LiteralAt(ts, 9)), 10);
    assert DirectivesAt(ts, 16) == Ok([], 16);
    assert FieldBodyAt(ts, 16, None, LiteralAt(ts, 9), f.arguments, []) == Ok(f, 29);
    assert FieldAfterNameAt(ts, 10, None, LiteralAt(ts, 9)) == Ok(f, 29);
    assert SelectionAt(ts, 9) == Ok(f, 29);
    SoleSelection(ts, 8, f, 29);
  }

  /**
   * The complex nested subscription: a subscription named by its second
   * token, with one variable, whose field takes the variable as argument and
   * nests `story`, which nests `likers { count }` and `likeSentence { text }`.
   */
  lemma ComplexNestedSubscription(ts: seq<Token>)
    requires StorySubscriptionKinds(ts)
    ensures DocumentAt(ts, 0)
         == Ok([OperationT(SubscriptionOp, LiteralAt(ts, 1),
                           [VariableDefinitionTree(LiteralAt(ts, 4), NamedT(LiteralAt(ts, 6)), None, [])], [],
                           [StoryLikeSubscribeFrom(ts)])], 30)
  {
    InputIsName();
    StoryLikeSubscribeBlock(ts);
    OneVariableOperation(ts, 0, [StoryLikeSubscribeFrom(ts)], 30);
    OneDefinition(ts);
  }

  /** `op Name($name: Type) { … }` from index `i`: a definition that is a named operation with one variable and no directives. */
  lemma OneVariableOperation(ts: seq<Token>, i: nat, selections: seq<SelectionTree>, n: nat)
    requires i <= |ts| && KindAt(ts, i) in {Query, Mutation, Subscription} && IsName(KindAt(ts, i + 1))
    requires KindAt(ts, i + 2) == BracketOpen && KindAt(ts, i + 3) == Dollar
    requires IsName(KindAt(ts, i + 4)) && !SpacedAt(ts, i + 4) && KindAt(ts, i + 5) == Colon
    requires IsName(KindAt(ts, i + 6)) && KindAt(ts, i + 7) == BracketClose && KindAt(ts, i + 8) == CurlyBracketOpen
    requires SelectionSetAt(ts, i + 8) == Ok(selections, n)
    ensures DefinitionAt(ts, i)
         == Ok(OperationT(OperationOf(KindAt(ts, i)).value, LiteralAt(ts, i + 1),
                          [VariableDefinitionTree(LiteralAt(ts, i + 4), NamedT(LiteralAt(ts, i + 6)), None, [])], [], selections), n)
  {
    var vars := [VariableDefinitionTree(LiteralAt(ts, i + 4), NamedT(LiteralAt(ts, i + 6)), None, [])];
    OperationFirst(ts, i);
    NamedOperationHead(ts, i);
    SingleVariable(ts, i + 2);
    VariablesThenSelections(ts, i + 2, OperationOf(KindAt(ts, i)).value, LiteralAt(ts, i + 1), vars, i + 8, selections, n);
  }

  // ----------------------------------------------------- selection set No 8

  /**
   * `{ me { ... on Person @foo { personID } ...personFragment @bar id firstName
   * lastName birthday { month day } friends { name } } }`: the token kinds.
   */
  predicate MeSelectionKinds(ts: seq<Token>) {
    && |ts| == 29 && KindAt(ts, 0) == CurlyBracketOpen && KindAt(ts, 1) == Ident && KindAt(ts, 2) == CurlyBracketOpen
    && KindAt(ts, 3) == Spread && KindAt(ts, 4) == On && KindAt(ts, 5) == Ident
    && KindAt(ts, 6) == At && KindAt(ts, 7) == Ident && KindAt(ts, 8) == CurlyBracketOpen
    && KindAt(ts, 9) == Ident && KindAt(ts, 10) == CurlyBracketClose
    && KindAt(ts, 11) == Spread && KindAt(ts, 12) == Ident
    && KindAt(ts, 13) == At && KindAt(ts, 14) == Ident
    && KindAt(ts, 15) == Ident && KindAt(ts, 16) == Ident && KindAt(ts, 17) == Ident
    && KindAt(ts, 18) == Ident && KindAt(ts, 19) == CurlyBracketOpen
    && KindAt(ts, 20) == Ident && KindAt(ts, 21) == Ident && KindAt(ts, 22) == CurlyBracketClose
    && KindAt(ts, 23) == Ident && KindAt(ts, 24) == CurlyBracketOpen && KindAt(ts, 25) == Ident
    && KindAt(ts, 26) == CurlyBracketClose && KindAt(ts, 27) == CurlyBracketClose && KindAt(ts, 28) == CurlyBracketClose
  }

  /** `... on Person @foo { personID }`: an inline fragment with its type condition, its directive and one field. */
  function OnPersonFrom(ts: seq<Token>): SelectionTree {
    InlineT(Some(LiteralAt(ts, 5)), [DirectiveTree(LiteralAt(ts, 7), [])], [LeafAt(ts, 9)])
  }

  /** `...personFragment @bar`: a fragment spread with its directive. */
  function PersonFragmentFrom(ts: seq<Token>): SelectionTree {
    SpreadT(LiteralAt(ts, 12), [DirectiveTree(LiteralAt(ts, 14), [])])
  }

  /** `id firstName lastName birthday { month day } friends { name }`: the fields after the fragments. */
  function MeFieldsFrom(ts: seq<Token>): seq<SelectionTree> {
    [LeafAt(ts, 15), LeafAt(ts, 16), LeafAt(ts, 17),
     NestedAt(ts, 18, [LeafAt(ts, 20), LeafAt(ts, 21)]), NestedAt(ts, 23, [LeafAt(ts, 25)])]
  }

  /** The inline fragment at index 3. */
  lemma OnPersonFragment(ts: seq<Token>)
    requires MeSelectionKinds(ts)
    ensures SelectionAt(ts, 3) == Ok(OnPersonFrom(ts), 11)
  {
    var f := OnPersonFrom(ts);
    assert TypeConditionAt(ts, 4) == Ok(Some(LiteralAt(ts, 5)), 6);
    BareDirective(ts, 6);
    LeafBlock(ts, 8);
    assert InlineFragmentSelectionsAt(ts, 8, f.typeCondition, f.directives) == Ok(f, 11);
    assert InlineFragmentBodyAt(ts, 6, f.typeCondition) == Ok(f, 11);
    assert InlineFragmentAt(ts, 4) == Ok(f, 11);
  }

  /** The fragment spread at index 11. */
  lemma PersonFragmentSpread(ts: seq<Token>)
    requires MeSelectionKinds(ts)
    ensures SelectionAt(ts, 11) == Ok(PersonFragmentFrom(ts), 15)
  {
    BareDirective(ts, 13);
    assert FragmentSpreadAt(ts, 12) == Ok(PersonFragmentFrom(ts), 15);
  }

  /** `birthday { month day }` at index 18. */
  lemma BirthdayField(ts: seq<Token>)
    requires MeSelectionKinds(ts)
    ensures SelectionAt(ts, 18) == Ok(NestedAt(ts, 18, [LeafAt(ts, 20), LeafAt(ts, 21)]), 23)
  {
    LastLeaf(ts, 21);
    LeafField(ts, 20);
    SelectionThen(ts, 20, LeafAt(ts, 20), 21, [LeafAt(ts, 21)], 23);
    assert [LeafAt(ts, 20)] + [LeafAt(ts, 21)] == [LeafAt(ts, 20), LeafAt(ts, 21)];
    assert SelectionSetAt(ts, 19) == Ok([LeafAt(ts, 20), LeafAt(ts, 21)], 23);
    NestedField(ts, 18, [LeafAt(ts, 20), LeafAt(ts, 21)], 23);
  }

  /** The fields of `me` after its two fragments, up to its `}`. */
  lemma MeFields(ts: seq<Token>)
    requires MeSelectionKinds(ts)
    ensures SelectionsAt(ts, 15) == Ok(MeFieldsFrom(ts), 28)
  {
    var fields := MeFieldsFrom(ts);
    LastNestedLeaf(ts, 23);
    BirthdayField(ts);
    SelectionThen(ts, 18, fields[3], 23, fields[4..], 28);
    assert [fields[3]] + fields[4..] == fields[3..];
    LeafField(ts, 17);
    SelectionThen(ts, 17, fields[2], 18, fields[3..], 28);
    assert [fields[2]] + fields[3..] == fields[2..];
    LeafField(ts, 16);
    SelectionThen(ts, 16, fields[1], 17, fields[2..], 28);
    assert [fields[1]] + fields[2..] == fields[1..];
    LeafField(ts, 15);
    SelectionThen(ts, 15, fields[0], 16, fields[1..], 28);
    assert [fields[0]] + fields[1..] == fields;
  }

  /** The selections of `me`, in order: the inline fragment, the spread, then the five fields. */
  lemma MeSelections(ts: seq<Token>)
    requires MeSelectionKinds(ts)
    ensures SelectionsAt(ts, 3) == Ok([OnPersonFrom(ts), PersonFragmentFrom(ts)] + MeFieldsFrom(ts), 28)
  {
    MeFields(ts);
    PersonFragmentSpread(ts);
    SelectionThen(ts, 11, PersonFragmentFrom(ts), 15, MeFieldsFrom(ts), 28);
    OnPersonFragment(ts);
    SelectionThen(ts, 3, OnPersonFrom(ts), 11, [PersonFragmentFrom(ts)] + MeFieldsFrom(ts), 28);
    assert [OnPersonFrom(ts)] + ([PersonFragmentFrom(ts)] + MeFieldsFrom(ts))
        == [OnPersonFrom(ts), PersonFragmentFrom(ts)] + MeFieldsFrom(ts);
  }

  /** The field `me` at index 1, with its selection set. */
  lemma MeField(ts: seq<Token>)
    requires MeSelectionKinds(ts)
    ensures SelectionAt(ts, 1) == Ok(NestedAt(ts, 1, [OnPersonFrom(ts), PersonFragmentFrom(ts)] + MeFieldsFrom(ts)), 28)
  {
    MeSelections(ts);
    NestedField(ts, 1, [OnPersonFrom(ts), PersonFragmentFrom(ts)] + MeFieldsFrom(ts), 28);
  }

  /**
   * Selection set "No 8": one field `me`, whose selections are, in order, the
   * inline fragment on `Person` with one directive and the field `personID`,
   * the spread of `personFragment` with one directive, `id`, `firstName`,
   * `lastName`, `birthday` holding `month` and `day`, and `friends` holding
   * `name`.
   */
  lemma SelectionSetNo8(ts: seq<Token>)
    requires MeSelectionKinds(ts)
    ensures SelectionSetAt(ts, 0)
         == Ok([NestedAt(ts, 1, [OnPersonFrom(ts), PersonFragmentFrom(ts)] + MeFieldsFrom(ts))], 29)
  {
    MeField(ts);
    SoleSelection(ts, 0, NestedAt(ts, 1, [OnPersonFrom(ts), PersonFragmentFrom(ts)] + MeFieldsFrom(ts)), 28);
  }

  // ---------------------------------------------------------- inline fragment

  /** `on User { friends { count } }`: the type condition and the nested field. */
  lemma InlineFragmentOnUser(ts: seq<Token>)
    requires |ts| == 8 && KindAt(ts, 0) == On && KindAt(ts, 1) == Ident && KindAt(ts, 2) == CurlyBracketOpen
    requires KindAt(ts, 3) == Ident && KindAt(ts, 4) == CurlyBracketOpen && KindAt(ts, 5) == Ident
    requires KindAt(ts, 6) == CurlyBracketClose && KindAt(ts, 7) == CurlyBracketClose
    ensures InlineFragmentAt(ts, 0) == Ok(InlineT(Some(LiteralAt(ts, 1)), [], [NestedAt(ts, 3, [LeafAt(ts, 5)])]), 8)
  {
    var f := InlineT(Some(LiteralAt(ts, 1)), [], [NestedAt(ts, 3, [LeafAt(ts, 5)])]);
    assert TypeConditionAt(ts, 0) == Ok(Some(LiteralAt(ts, 1)), 2);
    assert DirectivesAt(ts, 2) == Ok([], 2);
    LastNestedLeaf(ts, 3);
    assert InlineFragmentSelectionsAt(ts, 2, f.typeCondition, []) == Ok(f, 8);
  }

  // ------------------------------------------------------ fragment definition

  /** A definition that starts with `fragment` is a fragment definition. */
  lemma FragmentFirst(ts: seq<Token>, i: nat)
    requires i <= |ts| && KindAt(ts, i) == Fragment
    ensures DefinitionAt(ts, i) == FragmentDefinitionAt(ts, i)
  {
    assert !DescriptionAt(ts, i).value.Described?;
    assert UndescribedDefinitionAt(ts, i) == FragmentDefinitionAt(ts, i);
  }

  /** `fragment Name on Type { … }` from index `i`: a definition that is a fragment without directives. */
  lemma FragmentWithSelections(ts: seq<Token>, i: nat, selections: seq<SelectionTree>, n: nat)
    requires i <= |ts| && KindAt(ts, i) == Fragment && IsName(KindAt(ts, i + 1)) && KindAt(ts, i + 1) != On
    requires KindAt(ts, i + 2) == On && IsName(KindAt(ts, i + 3)) && KindAt(ts, i + 4) == CurlyBracketOpen
    requires SelectionSetAt(ts, i + 4) == Ok(selections, n)
    ensures DefinitionAt(ts, i) == Ok(FragmentT(LiteralAt(ts, i + 1), LiteralAt(ts, i + 3), [], selections), n)
  {
    FragmentFirst(ts, i);
    assert FragmentHeadAt(ts, i) == Ok(FragmentHead(LiteralAt(ts, i + 1), LiteralAt(ts, i + 3)), i + 4);
    assert DirectivesAt(ts, i + 4) == Ok([], i + 4);
    assert FragmentBodyAt(ts, i + 4, LiteralAt(ts, i + 1), LiteralAt(ts, i + 3))
        == Ok(FragmentT(LiteralAt(ts, i + 1), LiteralAt(ts, i + 3), [], selections), n);
  }

  /** `fragment friendFields on User { id name profilePic(size: 50) }`: the token kinds. */
  predicate FriendFieldsKinds(ts: seq<Token>) {
    && |ts| == 14 && KindAt(ts, 0) == Fragment && KindAt(ts, 1) == Ident
    && KindAt(ts, 2) == On && KindAt(ts, 3) == Ident && KindAt(ts, 4) == CurlyBracketOpen
    && KindAt(ts, 5) == Ident && KindAt(ts, 6) == Ident && KindAt(ts, 7) == Ident
    && KindAt(ts, 8) == BracketOpen && KindAt(ts, 9) == Ident && KindAt(ts, 10) == Colon && KindAt(ts, 11) == Integer
    && KindAt(ts, 12) == BracketClose && KindAt(ts, 13) == CurlyBracketClose
  }

  /** `profilePic(size: 50)`: its one argument, and no selections. */
  function ProfilePicFrom(ts: seq<Token>): SelectionTree {
    FieldT(None, LiteralAt(ts, 7), [ArgumentTree(LiteralAt(ts, 9), IntV(false, LiteralAt(ts, 11)))], [], Leaf)
  }

  /** The last selection, `profilePic(size: 50)`, and the `}` after it. */
  lemma ProfilePicField(ts: seq<Token>)
    requires FriendFieldsKinds(ts)
    ensures SelectionsAt(ts, 7) == Ok([ProfilePicFrom(ts)], 14)
  {
    var f := ProfilePicFrom(ts);
    assert ValueAt(ts, 11) == Ok(IntV(false, LiteralAt(ts, 11)), 12);
    assert ArgumentItemsAt(ts, 12) == Ok([], 13);
    ArgumentItemsStep(ts, 9);
    assert ArgumentItemsAt(ts, 9) == Ok(f.arguments + [], 13);
    assert f.arguments + [] == f.arguments;
    assert ArgumentsAt(ts, 8) == Ok(f.arguments, 13);
    assert FieldNameAt(ts, 7) == Ok(FieldName(None, LiteralAt(ts, 7)), 8);
    assert DirectivesAt(ts, 13) == Ok([], 13);
    assert FieldAfterNameAt(ts, 8, None, LiteralAt(ts, 7)) == Ok(f, 13);
    assert SelectionsAt(ts, 13) == Ok([], 14);
    SelectionThen(ts, 7, f, 13, [], 14);
    assert [f] + [] == [f];
  }

  /** The selection set of `friendFields`: `id`, `name`, then `profilePic(size: 50)`. */
  lemma FriendFieldsSelections(ts: seq<Token>)
    requires FriendFieldsKinds(ts)
    ensures SelectionSetAt(ts, 4) == Ok([LeafAt(ts, 5), LeafAt(ts, 6), ProfilePicFrom(ts)], 14)
  {
    ProfilePicField(ts);
    LeafField(ts, 6);
    SelectionThen(ts, 6, LeafAt(ts, 6), 7, [ProfilePicFrom(ts)], 14);
    assert [LeafAt(ts, 6)] + [ProfilePicFrom(ts)] == [LeafAt(ts, 6), ProfilePicFrom(ts)];
    LeafField(ts, 5);
    SelectionThen(ts, 5, LeafAt(ts, 5), 6, [LeafAt(ts, 6), ProfilePicFrom(ts)], 14);
    assert [LeafAt(ts, 5)] + [LeafAt(ts, 6), ProfilePicFrom(ts)] == [LeafAt(ts, 5), LeafAt(ts, 6), ProfilePicFrom(ts)];
  }

  /**
   * The fragment definition `friendFields` on `User`: its name, its type
   * condition, and its selections `id`, `name` and `profilePic` in order.
   */
  lemma FragmentDefinition(ts: seq<Token>)
    requires FriendFieldsKinds(ts)
    ensures DocumentAt(ts, 0)
         == Ok([FragmentT(LiteralAt(ts, 1), LiteralAt(ts, 3), [], [LeafAt(ts, 5), LeafAt(ts, 6), ProfilePicFrom(ts)])], 14)
  {
    FriendFieldsSelections(ts);
    FragmentWithSelections(ts, 0, [LeafAt(ts, 5), LeafAt(ts, 6), ProfilePicFrom(ts)], 14);
    OneDefinition(ts);
  }
}

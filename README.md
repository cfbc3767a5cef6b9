# GraphQL arena parser, modelled in Dafny

This project models the recursive-descent GraphQL parser of
graphql-go-tools (`pkg/astparser`) together with the arena-based `Document`
it fills, and the generated `SelectionKind` enum of `pkg/document`.

The parser's own source is not part of this model. Its behaviour is pinned
down by `pkg/astparser/parser_test.go`, and the model follows those tests
case by case. Where the tests are silent, it follows the GraphQL grammar
(June 2018 edition of the GraphQL specification).

The model has three layers.

- **Reference grammar** (`grammar.dfy`, module `Grammar`). There is one pure
  function per production. It reads a token sequence from an index and
  returns either the abstract tree (`syntax.dfy`) and the index after it,
  or `Err(at)` naming the token the parser cannot accept.
- **Imperative parser** (`parser.dfy`, class `AstParser.Parser`). It is a
  cursor over the tokens that appends nodes to the `Document`'s arenas
  (`ast.dfy`): one sequence per node kind (Types, Values, IntValues,
  FieldDefinitions, …), with refs as indices. Most of its `parse…` methods
  are proved against the grammar function of their production:
  - such a method fails exactly when the grammar fails, at the same token;
  - otherwise it stops where the grammar stops and only appends to the
    arenas;
  - the refs it returns *denote* the grammar's tree (`denotation.dfy`).

  The single-token readers `ParseStringValue` and `ParseNumber` state
  their results directly, in terms of the token they read.

  Types are pinned down further. `ParseType` appends exactly the layout
  the tests expect: wrapped types first, so `[[String!]!]!` fills Types[0]
  to Types[5].
- **The tests as lemmas** (`examples.dfy`, module `ParserExamples`;
  `definition_examples.dfy`, module `DefinitionExamples`, for schemas,
  type definitions and extensions; `operation_examples.dfy`, module
  `OperationExamples`, for operations, selection sets and fragments). The
  assertions of `parser_test.go` are restated over token streams. Most are
  stated about the grammar functions. Others are stated as methods that
  run `Parse`, or the directive-location iterator, on a fresh `Document`
  and read the arenas.

`directive_locations.dfy` models the closed set of directive locations and
its iterator. `selection_kind.dfy` models `String` and `ParseSelectionKind`
of `pkg/document/selectionkind_enum.go`, including the `SelectionKind(n)`
fallback text and the error message.

## Behaviour the tests pin down

- **Order of iteration over directive locations.** The test at
  `pkg/astparser/parser_test.go:1121-1151` parses `FIELD | SCALAR | SCHEMA`
  and expects the iterator to yield FIELD, SCHEMA, SCALAR. That is the
  order of the location enumeration, not the order in the source text. The
  model iterates in enumeration order (`DirectiveLocations.Iterable`).
- **Block-string descriptions.** The test at
  `pkg/astparser/parser_test.go:627-635` expects the description of
  `dateOfBirth` to be the raw text between the triple quotes, leading
  newline and tabs included. The model keeps that raw content and does not
  apply the block-string dedent of the GraphQL specification.
- **`- 123` and `- 13.37`.** The tests at
  `pkg/astparser/parser_test.go:1244` and `pkg/astparser/parser_test.go:1281`
  expect an error when ignored characters separate `-` from the number.
  The model sees a `-` token and a number token and rejects the number token
  when it is not glued to the `-`.

## Model

| member | source | states |
|---|---|---|
| AstParser.Parse | pkg/astparser/parser_test.go:19-23 | reports an error exactly when DocumentAt rejects the stream, at the token DocumentAt names; on success RootNodes lists one root per definition, in order, each denoting DocumentAt's tree |
| AstParser.Parser.ParseDocument | pkg/astparser/parser_test.go:19-23 | fails exactly where DocumentAt fails, at the same token; on success it stops where DocumentAt stops, only appends to the arenas, and appends one root node per definition to RootNodes, each denoting the grammar's tree |
| AstParser.Parser.ParseDefinition | pkg/astparser/parser_test.go:19-23 | fails exactly where DefinitionAt fails, at the same token; on success it stops where DefinitionAt stops, only appends to the arenas, and returns a root node denoting the definition, its description included |
| AstParser.Parser.ParseUndescribedDefinition | pkg/astparser/parser_test.go:19-23 | fails exactly where UndescribedDefinitionAt fails, at the same token; on success it stops where UndescribedDefinitionAt stops, only appends to the arenas, and returns a root node denoting the operation, fragment, extension or type-system definition |
| AstParser.Parser.ParseExtension | pkg/astparser/parser_test.go:226-264 | fails exactly where ExtensionAt fails, at the same token; on success it stops where ExtensionAt stops, only appends to the arenas, and returns a root node denoting the extension, flagged as one |
| AstParser.Parser.ParseTypeSystemDefinition | pkg/astparser/parser_test.go:19-23 | fails exactly where TypeSystemDefinitionAt fails, at the same token; on success it stops where TypeSystemDefinitionAt stops, only appends to the arenas, and returns a root node denoting the schema, type or directive definition |
| AstParser.Parser.ParseType | pkg/astparser/parser_test.go:897-1045 | fails exactly where TypeAt fails; on success it appends exactly TypeLayout of the parsed type (wrapped types first) to Types, changes no other arena, and returns the ref of the outermost node |
| AstParser.Parser.ParseCoreType | pkg/astparser/parser_test.go:897-1045 | fails exactly where CoreTypeAt fails; on success Types grows by the named or list type's layout and the ref is its last node |
| AstParser.Parser.ParseListClose | pkg/astparser/parser_test.go:1024-1044 | fails exactly where ListCloseAt fails (no `]` after the element type); on `]` it appends one List node wrapping the element's ref and changes no other arena |
| AstParser.Parser.ParseListType | pkg/astparser/parser_test.go:897-1045 | fails exactly where ListTypeAt fails (missing inner type, missing `]`); on success Types grows by the list type's layout |
| AstParser.Parser.ParseBang | pkg/astparser/parser_test.go:1024-1044 | fails exactly where BangAt fails (a second `!`); a `!` appends one NonNull node wrapping the given ref, otherwise Types is unchanged |
| AstParser.Parser.ParseValue | pkg/astparser/parser_test.go:1162-1413 | fails exactly where ValueAt fails, at the same token; on success it stops where ValueAt stops, only appends to the arenas, and returns a Value whose arena nodes denote ValueAt's tree |
| AstParser.Parser.ParseScalarValue | pkg/astparser/parser_test.go:1162-1413 | fails exactly where ScalarValueAt fails, at the same token; on success it stops where ScalarValueAt stops, only appends to the arenas, and returns a Value denoting the variable, number, string, boolean, null or enum value |
| AstParser.Parser.ParseStringValue | pkg/astparser/parser_test.go:1162-1413 | reads exactly one string or block string token and returns a Value denoting it with its raw content and block-string flag |
| AstParser.Parser.ParseNamedValue | pkg/astparser/parser_test.go:1162-1413 | fails exactly where NamedValueAt fails, at the same token; on success it stops where NamedValueAt stops, only appends to the arenas, and returns a Value denoting the boolean, null or enum value the name spells |
| AstParser.Parser.ParseVariableValue | pkg/astparser/parser_test.go:1163-1209 | fails exactly where VariableNameAt fails, at the same token; on success it stops where VariableNameAt stops, only appends to the arenas, and returns a variable Value whose name is the identifier after `$`, stored without the `$` |
| AstParser.Parser.ParseNegativeNumber | pkg/astparser/parser_test.go:1210-1246 | fails exactly where NegativeNumberAt fails, at the same token; on success it stops where NegativeNumberAt stops, only appends to the arenas, and returns an integer or float Value flagged negative with the digits after the glued `-` |
| AstParser.Parser.ParseNumber | pkg/astparser/parser_test.go:1210-1246 | reads exactly one number token and returns an Int or Float Value with its raw digits and the given sign flag |
| AstParser.Parser.ParseListValue | pkg/astparser/parser_test.go:1293-1355 | fails exactly where ListItemsAt fails, at the same token; on success it stops where ListItemsAt stops, only appends to the arenas, and returns a List Value whose item refs denote the items in source order |
| AstParser.Parser.ParseListItems | pkg/astparser/parser_test.go:1293-1355 | fails exactly where ListItemsAt fails, at the same token; on success it stops where ListItemsAt stops, only appends to the arenas, and returns refs denoting the list items up to `]`, in order |
| AstParser.Parser.ParseListItem | pkg/astparser/parser_test.go:1293-1355 | on an error reports ListItemsAt's failure; otherwise extends the item refs by one value denoting the next item |
| AstParser.Parser.ParseObjectValue | pkg/astparser/parser_test.go:1356-1412 | fails exactly where ObjectFieldsAt fails, at the same token; on success it stops where ObjectFieldsAt stops, only appends to the arenas, and returns an Object Value whose field refs denote the fields in source order |
| AstParser.Parser.ParseObjectFields | pkg/astparser/parser_test.go:1356-1412 | fails exactly where ObjectFieldsAt fails, at the same token; on success it stops where ObjectFieldsAt stops, only appends to the arenas, and returns refs denoting the object fields up to `}`, in order |
| AstParser.Parser.ParseObjectField | pkg/astparser/parser_test.go:1356-1412 | on an error reports ObjectFieldsAt's failure; otherwise extends the field refs by one field denoting `name: value` |
| AstParser.Parser.ParseArguments | pkg/astparser/parser_test.go:181-212 | fails exactly where ArgumentsAt fails, at the same token; on success it stops where ArgumentsAt stops, only appends to the arenas, and returns refs denoting the arguments in order (none without `(`) |
| AstParser.Parser.ParseArgumentItems | pkg/astparser/parser_test.go:181-212 | fails exactly where ArgumentItemsAt fails, at the same token; on success it stops where ArgumentItemsAt stops, only appends to the arenas, and returns refs denoting the arguments up to `)`, in order |
| AstParser.Parser.ParseArgument | pkg/astparser/parser_test.go:181-212 | on an error reports ArgumentItemsAt's failure; otherwise extends the argument refs by one argument denoting `name: value` |
| AstParser.Parser.ParseDirectives | pkg/astparser/parser_test.go:644-664 | fails exactly where DirectivesAt fails, at the same token; on success it stops where DirectivesAt stops, only appends to the arenas, and returns refs denoting the directives in order (none when no `@` follows) |
| AstParser.Parser.ParseDirective | pkg/astparser/parser_test.go:644-664 | fails exactly where DirectiveAt fails, at the same token; on success it stops where DirectiveAt stops, only appends to the arenas, and extends the directive refs by one directive denoting `@name(arguments)` |
| AstParser.Parser.ParseDescription | pkg/astparser/parser_test.go:523-537 | reads a string or block string token when one is next and nothing otherwise, and returns the Description record DescriptionOf gives for DescriptionAt's tree (defined, block-string flag, raw content) |
| AstParser.Parser.ParseDescribedName | pkg/astparser/parser_test.go:691-771 | fails exactly where DescribedNameAt fails, at the same token; on success it stops where DescribedNameAt stops, only appends to the arenas, and returns the description record and the name that follows it |
| AstParser.Parser.Expect | pkg/astparser/parser_test.go:79-100 | succeeds and advances by one token exactly when the next token has the expected keyword; otherwise reports an error at that token |
| AstParser.Parser.ParseDefaultValue | pkg/astparser/parser_test.go:1577-1624 | fails exactly where DefaultValueAt fails, at the same token; on success it stops where DefaultValueAt stops, only appends to the arenas, and returns no value without `=`, otherwise a Value denoting the default |
| AstParser.Parser.ParseArgumentsDefinition | pkg/astparser/parser_test.go:691-771 | fails exactly where ArgumentsDefinitionAt fails, at the same token; on success it stops where ArgumentsDefinitionAt stops, only appends to the arenas, and returns refs denoting the input value definitions between `(` and `)`, in order |
| AstParser.Parser.ParseInputValueDefinitions | pkg/astparser/parser_test.go:691-771 | fails exactly where InputValueDefinitionsAt fails, at the same token; on success it stops where InputValueDefinitionsAt stops, only appends to the arenas, and returns refs denoting the input value definitions up to the closing token, in order |
| AstParser.Parser.ParseInputValueDefinition | pkg/astparser/parser_test.go:691-771 | fails exactly where InputValueDefinitionAt fails, at the same token; on success it stops where InputValueDefinitionAt stops, only appends to the arenas, and extends the refs by one input value definition denoting description, name, type, default value and directives |
| AstParser.Parser.ParseInputValueTyped | pkg/astparser/parser_test.go:691-771 | fails exactly where InputValueTypedAt fails, at the same token; on success it stops where InputValueTypedAt stops, only appends to the arenas, and parses the `:` and type of an input value and then its default value and directives |
| AstParser.Parser.ParseFieldsDefinition | pkg/astparser/parser_test.go:553-643 | fails exactly where FieldsDefinitionAt fails, at the same token; on success it stops where FieldsDefinitionAt stops, only appends to the arenas, and returns refs denoting the field definitions between `{` and `}`, in order |
| AstParser.Parser.ParseFieldDefinitions | pkg/astparser/parser_test.go:553-643 | fails exactly where FieldDefinitionsAt fails, at the same token; on success it stops where FieldDefinitionsAt stops, only appends to the arenas, and returns refs denoting the field definitions up to `}`, in order |
| AstParser.Parser.ParseFieldDefinition | pkg/astparser/parser_test.go:553-643 | fails exactly where FieldDefinitionAt fails, at the same token; on success it stops where FieldDefinitionAt stops, only appends to the arenas, and extends the refs by one field definition denoting description, name, arguments, type and directives |
| AstParser.Parser.ParseFieldDefinitionArguments | pkg/astparser/parser_test.go:691-771 | fails exactly where FieldDefinitionArgumentsAt fails, at the same token; on success it stops where FieldDefinitionArgumentsAt stops, only appends to the arenas, and parses a field's optional arguments definition and then the rest of the field |
| AstParser.Parser.ParseFieldDefinitionColon | pkg/astparser/parser_test.go:553-643 | fails exactly where FieldDefinitionColonAt fails, at the same token; on success it stops where FieldDefinitionColonAt stops, only appends to the arenas, and requires the `:` after a field's name and arguments, then parses its type and directives |
| AstParser.Parser.ParseEnumValueDefinitions | pkg/astparser/parser_test.go:1046-1100 | fails exactly where EnumValueDefinitionsAt fails, at the same token; on success it stops where EnumValueDefinitionsAt stops, only appends to the arenas, and returns refs denoting the enum value definitions up to `}`, in order |
| AstParser.Parser.ParseEnumValueName | pkg/astparser/parser_test.go:1046-1100 | fails exactly where EnumValueNameAt fails; on success it appends one enum value definition carrying the description it was given and extends the refs by it |
| AstParser.Parser.ParseEnumValueDefinition | pkg/astparser/parser_test.go:1046-1100 | fails exactly where EnumValueDefinitionAt fails, at the same token; on success it stops where EnumValueDefinitionAt stops, only appends to the arenas, and extends the refs by one enum value definition; `true`, `false` and `null` are refused as enum values |
| AstParser.Parser.ParseSeparatedNames | pkg/astparser/parser_test.go:665-690 | fails exactly where SeparatedNamesAt fails, at the same token; on success it stops where SeparatedNamesAt stops, only appends to the arenas, and returns Types refs of named types, one per name, in order; an optional leading separator is allowed |
| AstParser.Parser.ParseNamesAfterSeparator | pkg/astparser/parser_test.go:846-876 | fails exactly where NamesAfterSeparatorAt fails, at the same token; on success it stops where NamesAfterSeparatorAt stops, only appends to the arenas, and returns Types refs of the names, in order; a separator must be followed by a name |
| AstParser.Parser.ParseSeparatedName | pkg/astparser/parser_test.go:772-774 | reports NamesAfterSeparatorAt's error when no name is next; otherwise appends one named type for the name and says whether a separator follows |
| AstParser.Parser.ParseDirectiveLocations | pkg/astparser/parser_test.go:1101-1161 | fails exactly where LocationsAt fails, at the same token; on success it stops where LocationsAt stops, only appends to the arenas, and returns the set of directive locations LocationsAt reads |
| AstParser.Parser.ParseLocation | pkg/astparser/parser_test.go:1152-1160 | on an error reports LocationsAfterSeparatorAt's failure (a name that is no directive location, or none); otherwise consumes the location and says whether `|` follows |
| AstParser.Parser.ParseSelectionSet | pkg/astparser/parser_test.go:1625-1725 | fails exactly where SelectionSetAt fails, at the same token; on success it stops where SelectionSetAt stops, only appends to the arenas, and returns a selection set whose refs denote the selections in order |
| AstParser.Parser.ParseSelections | pkg/astparser/parser_test.go:1625-1725 | fails exactly where SelectionsAt fails, at the same token; on success it stops where SelectionsAt stops, only appends to the arenas, and returns refs denoting the selections up to `}`, in order |
| AstParser.Parser.ParseSelection | pkg/astparser/parser_test.go:1625-1725 | fails exactly where SelectionAt fails, at the same token; on success it stops where SelectionAt stops, only appends to the arenas, and extends the selection refs by one field, fragment spread or inline fragment selection |
| AstParser.Parser.ParseField | pkg/astparser/parser_test.go:1625-1725 | fails exactly where FieldAt fails, at the same token; on success it stops where FieldAt stops, only appends to the arenas, and extends the refs by one field selection denoting alias, name, arguments, directives and sub-selections |
| AstParser.Parser.ParseFieldName | pkg/astparser/parser_test.go:1625-1725 | fails exactly where FieldNameAt fails, at the same token; on success it stops where FieldNameAt stops, only appends to the arenas, and returns the field's alias (if `name :` comes first) and name |
| AstParser.Parser.FinishField | pkg/astparser/parser_test.go:1625-1725 | fails exactly where FieldBodyAt fails; on success appends a field whose optional selection set denotes the sub-selections |
| AstParser.Parser.ParseFragmentSpread | pkg/astparser/parser_test.go:1726-1742 | fails exactly where FragmentSpreadAt fails, at the same token; on success it stops where FragmentSpreadAt stops, only appends to the arenas, and extends the refs by one fragment spread denoting its name and directives; a name `on` is refused |
| AstParser.Parser.ParseInlineFragment | pkg/astparser/parser_test.go:1743-1779 | fails exactly where InlineFragmentAt fails, at the same token; on success it stops where InlineFragmentAt stops, only appends to the arenas, and extends the refs by one inline fragment denoting its optional type condition, directives and selections |
| AstParser.Parser.ParseTypeCondition | pkg/astparser/parser_test.go:1743-1779 | fails exactly where TypeConditionAt fails, at the same token; on success it stops where TypeConditionAt stops, only appends to the arenas, and returns a named type ref exactly when `on Name` is next |
| AstParser.Parser.ParseInlineFragmentBody | pkg/astparser/parser_test.go:1743-1779 | fails exactly where InlineFragmentBodyAt fails, at the same token; on success it stops where InlineFragmentBodyAt stops, only appends to the arenas, and parses the directives and selection set of an inline fragment |
| AstParser.Parser.ParseInlineFragmentSelections | pkg/astparser/parser_test.go:1743-1779 | fails exactly where InlineFragmentSelectionsAt fails, at the same token; on success it stops where InlineFragmentSelectionsAt stops, only appends to the arenas, and parses the selection set of an inline fragment and stores the fragment |
| AstParser.Parser.ParseVariableDefinitionList | pkg/astparser/parser_test.go:1577-1624 | fails exactly where VariableDefinitionListAt fails, at the same token; on success it stops where VariableDefinitionListAt stops, only appends to the arenas, and returns refs denoting the variable definitions between `(` and `)`, in order |
| AstParser.Parser.ParseVariableDefinitionItems | pkg/astparser/parser_test.go:1577-1624 | fails exactly where VariableDefinitionItemsAt fails, at the same token; on success it stops where VariableDefinitionItemsAt stops, only appends to the arenas, and returns refs denoting the variable definitions up to `)`, in order |
| AstParser.Parser.ParseVariableDefinition | pkg/astparser/parser_test.go:1577-1624 | fails exactly where VariableDefinitionAt fails, at the same token; on success it stops where VariableDefinitionAt stops, only appends to the arenas, and extends the refs by one variable definition denoting variable, type, default value and directives |
| AstParser.Parser.ParseVariableDefinitionTyped | pkg/astparser/parser_test.go:1577-1624 | fails exactly where VariableDefinitionTypedAt fails, at the same token; on success it stops where VariableDefinitionTypedAt stops, only appends to the arenas, and parses `: Type` after the variable, then its default value and directives |
| AstParser.Parser.FinishVariableDefinition | pkg/astparser/parser_test.go:1577-1624 | fails exactly where VariableDefinitionFinishAt fails; on success appends the variable definition denoting the grammar's tree |
| AstParser.Parser.ParseOperationDefinition | pkg/astparser/parser_test.go:1414-1576 | fails exactly where OperationDefinitionAt fails, at the same token; on success it stops where OperationDefinitionAt stops, only appends to the arenas, and returns a root node denoting the (possibly shorthand) query, mutation or subscription |
| AstParser.Parser.ParseOperationHead | pkg/astparser/parser_test.go:1414-1576 | fails exactly where OperationHeadAt fails, at the same token; on success it stops where OperationHeadAt stops, only appends to the arenas, and returns the operation kind (query for the shorthand form) and optional name |
| AstParser.Parser.ParseOperationAfterName | pkg/astparser/parser_test.go:1414-1576 | fails exactly where OperationAfterNameAt fails, at the same token; on success it stops where OperationAfterNameAt stops, only appends to the arenas, and parses the optional variable definitions of an operation and the rest of it |
| AstParser.Parser.ParseOperationBody | pkg/astparser/parser_test.go:1414-1576 | fails exactly where OperationBodyAt fails, at the same token; on success it stops where OperationBodyAt stops, only appends to the arenas, and parses an operation's directives and selection set and stores it |
| AstParser.Parser.ParseFragmentDefinition | pkg/astparser/parser_test.go:1780-1811 | fails exactly where FragmentDefinitionAt fails, at the same token; on success it stops where FragmentDefinitionAt stops, only appends to the arenas, and returns a root node denoting the fragment's name, type condition, directives and selections |
| AstParser.Parser.ParseFragmentHead | pkg/astparser/parser_test.go:1780-1811 | fails exactly where FragmentHeadAt fails, at the same token; on success it stops where FragmentHeadAt stops, only appends to the arenas, and returns the fragment name and the type condition after `on` |
| AstParser.Parser.ParseFragmentBody | pkg/astparser/parser_test.go:1780-1811 | fails exactly where FragmentBodyAt fails, at the same token; on success it stops where FragmentBodyAt stops, only appends to the arenas, and parses a fragment's directives and selection set and stores it |
| AstParser.Parser.ParseSchemaDefinition | pkg/astparser/parser_test.go:138-225 | fails exactly where SchemaAt fails, at the same token; on success it stops where SchemaAt stops, only appends to the arenas, and returns a root node denoting the schema definition or extension with its directives and root operation types |
| AstParser.Parser.ParseSchemaBody | pkg/astparser/parser_test.go:138-225 | fails exactly where SchemaBodyAt fails, at the same token; on success it stops where SchemaBodyAt stops, only appends to the arenas, and parses the schema's directives and then its body |
| AstParser.Parser.ParseSchemaOperations | pkg/astparser/parser_test.go:138-225 | fails exactly where SchemaOperationsAt fails, at the same token; on success it stops where SchemaOperationsAt stops, only appends to the arenas, and requires `{` and parses the root operation types up to `}` |
| AstParser.Parser.ParseRootOperations | pkg/astparser/parser_test.go:138-225 | fails exactly where RootOperationsAt fails, at the same token; on success it stops where RootOperationsAt stops, only appends to the arenas, and returns refs denoting the `operation: NamedType` entries up to `}`, in order |
| AstParser.Parser.ParseRootOperation | pkg/astparser/parser_test.go:138-225 | fails exactly where RootOperationAt fails, at the same token; on success it stops where RootOperationAt stops, only appends to the arenas, and extends the refs by one root operation type definition |
| AstParser.Parser.ParseNameAfter | pkg/astparser/parser_test.go:552-775 | fails exactly where NameAfterAt fails, at the same token; on success it stops where NameAfterAt stops, only appends to the arenas, and returns the name after the definition keyword |
| AstParser.Parser.ParseImplements | pkg/astparser/parser_test.go:665-690 | fails exactly where ImplementsAt fails, at the same token; on success it stops where ImplementsAt stops, only appends to the arenas, and returns refs of the implemented interfaces, none without `implements` |
| AstParser.Parser.ParseUnionMembers | pkg/astparser/parser_test.go:845-896 | fails exactly where UnionMembersAt fails, at the same token; on success it stops where UnionMembersAt stops, only appends to the arenas, and returns refs of the union's member types, none without `=` |
| AstParser.Parser.ParseEnumValuesDefinition | pkg/astparser/parser_test.go:1046-1100 | fails exactly where EnumValuesDefinitionAt fails, at the same token; on success it stops where EnumValuesDefinitionAt stops, only appends to the arenas, and returns refs denoting the enum values between `{` and `}` |
| AstParser.Parser.ParseInputFieldsDefinition | pkg/astparser/parser_test.go:776-802 | fails exactly where InputFieldsDefinitionAt fails, at the same token; on success it stops where InputFieldsDefinitionAt stops, only appends to the arenas, and returns refs denoting the input fields between `{` and `}` |
| AstParser.Parser.ParseInterfaceType | pkg/astparser/parser_test.go:803-844 | fails exactly where InterfaceTypeAt fails, at the same token; on success it stops where InterfaceTypeAt stops, only appends to the arenas, and returns a root node denoting the interface definition or extension |
| AstParser.Parser.ParseInterfaceTypeBody | pkg/astparser/parser_test.go:803-844 | fails exactly where InterfaceTypeBodyAt fails, at the same token; on success it stops where InterfaceTypeBodyAt stops, only appends to the arenas, and parses the interface's directives and fields and stores it |
| AstParser.Parser.ParseUnionType | pkg/astparser/parser_test.go:845-896 | fails exactly where UnionTypeAt fails, at the same token; on success it stops where UnionTypeAt stops, only appends to the arenas, and returns a root node denoting the union definition or extension with its member types in order |
| AstParser.Parser.ParseUnionTypeBody | pkg/astparser/parser_test.go:845-896 | fails exactly where UnionTypeBodyAt fails, at the same token; on success it stops where UnionTypeBodyAt stops, only appends to the arenas, and parses the union's directives and members and stores it |
| AstParser.Parser.ParseEnumType | pkg/astparser/parser_test.go:1046-1100 | fails exactly where EnumTypeAt fails, at the same token; on success it stops where EnumTypeAt stops, only appends to the arenas, and returns a root node denoting the enum definition or extension |
| AstParser.Parser.ParseEnumTypeBody | pkg/astparser/parser_test.go:1046-1100 | fails exactly where EnumTypeBodyAt fails, at the same token; on success it stops where EnumTypeBodyAt stops, only appends to the arenas, and parses the enum's directives and values and stores it |
| AstParser.Parser.ParseInputObjectType | pkg/astparser/parser_test.go:776-802 | fails exactly where InputObjectTypeAt fails, at the same token; on success it stops where InputObjectTypeAt stops, only appends to the arenas, and returns a root node denoting the input object definition or extension |
| AstParser.Parser.ParseInputObjectTypeBody | pkg/astparser/parser_test.go:776-802 | fails exactly where InputObjectTypeBodyAt fails, at the same token; on success it stops where InputObjectTypeBodyAt stops, only appends to the arenas, and parses the input object's directives and fields and stores it |
| AstParser.Parser.ParseObjectType | pkg/astparser/parser_test.go:552-775 | fails exactly where ObjectTypeAt fails, at the same token; on success it stops where ObjectTypeAt stops, only appends to the arenas, and returns a root node denoting the object type definition or extension |
| AstParser.Parser.ParseObjectTypeBody | pkg/astparser/parser_test.go:552-775 | fails exactly where ObjectTypeBodyAt fails, at the same token; on success it stops where ObjectTypeBodyAt stops, only appends to the arenas, and parses the object type's directives and fields and stores it |
| AstParser.Parser.ParseScalarType | pkg/astparser/parser_test.go:513-551 | fails exactly where ScalarTypeAt fails, at the same token; on success it stops where ScalarTypeAt stops, only appends to the arenas, and returns a root node denoting the scalar definition or extension |
| AstParser.Parser.ParseDirectiveDefinition | pkg/astparser/parser_test.go:1101-1161 | fails exactly where DirectiveDefinitionAt fails, at the same token; on success it stops where DirectiveDefinitionAt stops, only appends to the arenas, and returns a root node denoting the directive definition's description, name, arguments and locations |
| AstParser.Parser.ParseDirectiveName | pkg/astparser/parser_test.go:1101-1161 | fails exactly where DirectiveNameAt fails, at the same token; on success it stops where DirectiveNameAt stops, only appends to the arenas, and returns the name after `directive @` |
| AstParser.Parser.ParseDirectiveDefinitionArguments | pkg/astparser/parser_test.go:1101-1161 | fails exactly where DirectiveDefinitionArgumentsAt fails, at the same token; on success it stops where DirectiveDefinitionArgumentsAt stops, only appends to the arenas, and parses the directive's optional arguments definition and then its locations |
| AstParser.Parser.ParseDirectiveDefinitionLocations | pkg/astparser/parser_test.go:1101-1161 | fails exactly where DirectiveDefinitionLocationsAt fails, at the same token; on success it stops where DirectiveDefinitionLocationsAt stops, only appends to the arenas, and requires `on`, parses the locations and stores the directive definition |
| Grammar.TypeAt | pkg/astparser/parser_test.go:897-1045 | reads at least one token on success and never reports an error past the end of the stream (the reference definition of a type) |
| Grammar.CoreTypeAt | pkg/astparser/parser_test.go:897-1045 | reads at least one token on success and never reports an error past the end of the stream; a named or list type is never itself non-null |
| Grammar.ListTypeAt | pkg/astparser/parser_test.go:897-1045 | reads at least one token on success and never reports an error past the end of the stream; a success is a list type |
| Grammar.ListCloseAt | pkg/astparser/parser_test.go:1024-1044 | succeeds exactly on `]`, producing the list of the inner type one token later |
| Grammar.BangAt | pkg/astparser/parser_test.go:1024-1044 | wraps a non-null-free type at most once; a second `!` is an error |
| Grammar.VariableNameAt | pkg/astparser/parser_test.go:1163-1209 | a success reads exactly `$` and a glued name and yields the name without `$` |
| Grammar.NegativeNumberAt | pkg/astparser/parser_test.go:1210-1246 | a success reads `-` and a glued number and yields a negative Int or Float with the digits only |
| Grammar.ValueAt | pkg/astparser/parser_test.go:1162-1413 | reads at least one token on success and never reports an error past the end of the stream |
| Grammar.ScalarValueAt | pkg/astparser/parser_test.go:1162-1413 | reads at least one token on success and never reports an error past the end of the stream |
| Grammar.NamedValueAt | pkg/astparser/parser_test.go:1284-1292 | reads at least one token on success and never reports an error past the end of the stream |
| Grammar.ListItemsAt | pkg/astparser/parser_test.go:1293-1355 | reads at least one token on success and never reports an error past the end of the stream |
| Grammar.ObjectFieldsAt | pkg/astparser/parser_test.go:1356-1412 | reads at least one token on success and never reports an error past the end of the stream |
| Grammar.ObjectFieldsStep | pkg/astparser/parser_test.go:1356-1412 | a `name:` field fails where its value fails, and otherwise is followed by the remaining fields |
| Grammar.ArgumentsAt | pkg/astparser/parser_test.go:181-212 | may read nothing, and then yields no arguments |
| Grammar.ArgumentItemsAt | pkg/astparser/parser_test.go:181-212 | reads at least one token on success and never reports an error past the end of the stream |
| Grammar.ArgumentItemsStep | pkg/astparser/parser_test.go:181-212 | a `name:` argument fails where its value fails, and otherwise is followed by the remaining arguments |
| Grammar.DirectiveAt | pkg/astparser/parser_test.go:644-664 | reads at least one token on success and never reports an error past the end of the stream |
| Grammar.DirectivesAt | pkg/astparser/parser_test.go:644-664 | yields no directives exactly when it reads nothing |
| Grammar.DescriptionAt | pkg/astparser/parser_test.go:523-537 | a description is present exactly when a string or block string token is next; it then reads that one token and keeps its raw content and block-string flag |
| Grammar.DescribedNameAt | pkg/astparser/parser_test.go:691-771 | reads at least one token on success and never reports an error past the end of the stream |
| Grammar.ExpectAt | pkg/astparser/parser_test.go:79-100 | succeeds exactly when the next token has the given keyword, reading that one token; fails at it otherwise |
| Grammar.DefaultValueAt | pkg/astparser/parser_test.go:1577-1624 | yields no default exactly when it reads nothing |
| Grammar.InputValueDefinitionAt | pkg/astparser/parser_test.go:691-771 | reads at least one token on success and never reports an error past the end of the stream |
| Grammar.InputValueDefinitionsAt | pkg/astparser/parser_test.go:691-771 | reads at least one token on success and never reports an error past the end of the stream |
| Grammar.ArgumentsDefinitionAt | pkg/astparser/parser_test.go:691-771 | may read nothing, and then yields no input values |
| Grammar.FieldDefinitionAt | pkg/astparser/parser_test.go:553-643 | reads at least one token on success and never reports an error past the end of the stream |
| Grammar.FieldDefinitionColonAt | pkg/astparser/parser_test.go:553-643 | keeps the arguments it is given |
| Grammar.FieldDefinitionsAt | pkg/astparser/parser_test.go:553-643 | reads at least one token on success and never reports an error past the end of the stream |
| Grammar.FieldsDefinitionAt | pkg/astparser/parser_test.go:553-643 | may read nothing, and then yields no fields |
| Grammar.EnumValueDefinitionAt | pkg/astparser/parser_test.go:1046-1100 | reads at least one token on success and never reports an error past the end of the stream |
| Grammar.EnumValueNameAt | pkg/astparser/parser_test.go:1046-1100 | a success keeps the given description and the token's name; a missing name or `true`, `false`, `null` fails at that token |
| Grammar.EnumValueDefinitionsAt | pkg/astparser/parser_test.go:1046-1100 | reads at least one token on success and never reports an error past the end of the stream |
| Grammar.SeparatedNamesAt | pkg/astparser/parser_test.go:665-690 | a success yields at least one name |
| Grammar.NamesAfterSeparatorAt | pkg/astparser/parser_test.go:877-895 | a success yields at least one name and is not followed by a separator (a dangling separator is an error) |
| Grammar.LocationsAt | pkg/astparser/parser_test.go:1101-1161 | a success yields a non-empty set of locations |
| Grammar.LocationsAfterSeparatorAt | pkg/astparser/parser_test.go:1152-1160 | a success yields a non-empty set and is not followed by `|` (a trailing `|` is an error) |
| Grammar.SelectionSetAt | pkg/astparser/parser_test.go:1625-1725 | reads at least one token on success and never reports an error past the end of the stream |
| Grammar.SelectionsAt | pkg/astparser/parser_test.go:1625-1725 | reads at least one token on success and never reports an error past the end of the stream |
| Grammar.SelectionAt | pkg/astparser/parser_test.go:1625-1725 | reads at least one token on success and never reports an error past the end of the stream |
| Grammar.FieldAt | pkg/astparser/parser_test.go:1625-1725 | a success is a field selection |
| Grammar.FieldNameAt | pkg/astparser/parser_test.go:1625-1725 | reads at least one token on success and never reports an error past the end of the stream |
| Grammar.FieldAfterNameAt | pkg/astparser/parser_test.go:1625-1725 | a success is a field with the given alias and name |
| Grammar.FieldBodyAt | pkg/astparser/parser_test.go:1625-1725 | a success is a field with the given alias and name |
| Grammar.FragmentSpreadAt | pkg/astparser/parser_test.go:1726-1742 | a success is a fragment spread, and never one whose name is `on` |
| Grammar.InlineFragmentAt | pkg/astparser/parser_test.go:1743-1779 | a success is an inline fragment that has a type condition exactly when `on` comes first |
| Grammar.TypeConditionAt | pkg/astparser/parser_test.go:1743-1779 | yields a type condition exactly when `on` is next |
| Grammar.InlineFragmentBodyAt | pkg/astparser/parser_test.go:1743-1779 | a success is an inline fragment with the given type condition |
| Grammar.InlineFragmentSelectionsAt | pkg/astparser/parser_test.go:1743-1779 | a success is an inline fragment with the given type condition |
| Grammar.VariableDefinitionAt | pkg/astparser/parser_test.go:1577-1624 | reads at least one token on success and never reports an error past the end of the stream |
| Grammar.VariableDefinitionTypedAt | pkg/astparser/parser_test.go:1577-1624 | reads at least one token on success and never reports an error past the end of the stream |
| Grammar.VariableDefinitionFinishAt | pkg/astparser/parser_test.go:1577-1624 | reads at least one token on success and never reports an error past the end of the stream |
| Grammar.VariableDefinitionItemsAt | pkg/astparser/parser_test.go:1577-1624 | reads at least one token on success and never reports an error past the end of the stream |
| Grammar.VariableDefinitionListAt | pkg/astparser/parser_test.go:1577-1624 | reads at least one token on success and never reports an error past the end of the stream; it starts at `(` |
| Grammar.OperationOf | pkg/astparser/parser_test.go:1414-1576 | maps exactly `query`, `mutation` and `subscription` to an operation kind |
| Grammar.OperationDefinitionAt | pkg/astparser/parser_test.go:1414-1576 | a success is an operation definition |
| Grammar.OperationHeadAt | pkg/astparser/parser_test.go:1414-1576 | the operation kind is the one the leading keyword names |
| Grammar.OperationAfterNameAt | pkg/astparser/parser_test.go:1414-1576 | a success is an operation definition |
| Grammar.OperationBodyAt | pkg/astparser/parser_test.go:1414-1576 | a success is an operation definition |
| Grammar.FragmentDefinitionAt | pkg/astparser/parser_test.go:1780-1811 | a success is a fragment definition |
| Grammar.FragmentHeadAt | pkg/astparser/parser_test.go:1780-1811 | a success reads exactly `fragment Name on Type` |
| Grammar.FragmentBodyAt | pkg/astparser/parser_test.go:1780-1811 | a success is a fragment definition |
| Grammar.RootOperationsAt | pkg/astparser/parser_test.go:138-225 | reads at least one token on success and never reports an error past the end of the stream |
| Grammar.RootOperationAt | pkg/astparser/parser_test.go:138-225 | a success reads exactly `operation : NamedType` and its kind is the one the keyword names |
| Grammar.SchemaAt | pkg/astparser/parser_test.go:138-225 | a success is a schema definition, an extension exactly when asked for one |
| Grammar.SchemaBodyAt | pkg/astparser/parser_test.go:138-225 | a success is a schema definition with the requested extension flag |
| Grammar.SchemaOperationsAt | pkg/astparser/parser_test.go:138-225 | a success is a schema with the requested extension flag and the given directives |
| Grammar.NameAfterAt | pkg/astparser/parser_test.go:552-775 | a success reads the keyword and one name and yields that name |
| Grammar.ObjectTypeAt | pkg/astparser/parser_test.go:552-775 | a success is an object type with the requested extension flag |
| Grammar.ImplementsAt | pkg/astparser/parser_test.go:665-690 | yields no interfaces exactly when `implements` is not next |
| Grammar.ObjectTypeBodyAt | pkg/astparser/parser_test.go:552-775 | a success is an object type with the requested extension flag |
| Grammar.InterfaceTypeAt | pkg/astparser/parser_test.go:803-844 | a success is an interface type with the requested extension flag |
| Grammar.InterfaceTypeBodyAt | pkg/astparser/parser_test.go:803-844 | a success is an interface type with the requested extension flag |
| Grammar.UnionTypeAt | pkg/astparser/parser_test.go:845-896 | a success is a union type with the requested extension flag |
| Grammar.UnionTypeBodyAt | pkg/astparser/parser_test.go:845-896 | a success is a union type with the requested extension flag |
| Grammar.UnionMembersAt | pkg/astparser/parser_test.go:845-896 | may read nothing (no `=`) |
| Grammar.EnumTypeAt | pkg/astparser/parser_test.go:1046-1100 | a success is an enum type with the requested extension flag |
| Grammar.EnumTypeBodyAt | pkg/astparser/parser_test.go:1046-1100 | a success is an enum type with the requested extension flag |
| Grammar.EnumValuesDefinitionAt | pkg/astparser/parser_test.go:1046-1100 | may read nothing (no `{`) |
| Grammar.InputObjectTypeAt | pkg/astparser/parser_test.go:776-802 | a success is an input object type with the requested extension flag |
| Grammar.InputObjectTypeBodyAt | pkg/astparser/parser_test.go:776-802 | a success is an input object type with the requested extension flag |
| Grammar.InputFieldsDefinitionAt | pkg/astparser/parser_test.go:776-802 | may read nothing (no `{`) |
| Grammar.ScalarTypeAt | pkg/astparser/parser_test.go:513-551 | a success is a scalar type with the requested extension flag |
| Grammar.DirectiveDefinitionAt | pkg/astparser/parser_test.go:1101-1161 | a success is a directive definition |
| Grammar.DirectiveNameAt | pkg/astparser/parser_test.go:1101-1161 | a success reads exactly `directive @ Name` and yields the name |
| Grammar.DirectiveDefinitionArgumentsAt | pkg/astparser/parser_test.go:1101-1161 | a success is a directive definition |
| Grammar.DirectiveDefinitionLocationsAt | pkg/astparser/parser_test.go:1101-1161 | a success is a directive definition keeping the given arguments |
| Grammar.TypeSystemDefinitionAt | pkg/astparser/parser_test.go:19-23 | reads at least one token on success and never reports an error past the end of the stream |
| Grammar.DefinitionAt | pkg/astparser/parser_test.go:19-23 | reads at least one token on success and never reports an error past the end of the stream |
| Grammar.UndescribedDefinitionAt | pkg/astparser/parser_test.go:19-23 | reads at least one token on success and never reports an error past the end of the stream |
| Grammar.ExtensionAt | pkg/astparser/parser_test.go:226-264 | reads at least one token on success and never reports an error past the end of the stream |
| Grammar.DocumentAt | pkg/astparser/parser_test.go:19-23 | a success has read every token up to the end of the stream |
| Grammar.DocumentStep | pkg/astparser/parser_test.go:19-23 | a document is its first definition followed by the rest; a failing first definition fails the document at the same token |
| Denotation.TypeLayout | pkg/astparser/parser_test.go:993-1023 | a type occupies at least one Types node; wrappers follow what they wrap |
| Denotation.TypeLayoutDenotes | pkg/astparser/parser_test.go:993-1023 | the last node of a type's layout in the arena denotes the whole type (by induction over the type) |
| Denotation.TypeParsedDenotes | pkg/astparser/parser_test.go:897-1045 | when Types ends with a type's layout, its last node denotes the type |
| Denotation.TypeDeterministic | pkg/astparser/parser_test.go:897-1045 | a Types ref denotes at most one type, so the arena reads back unambiguously |
| Denotation.ValueDeterministic | pkg/astparser/parser_test.go:1162-1413 | a Value denotes at most one value tree |
| Denotation.DescriptionOf | pkg/astparser/parser_test.go:523-537 | the Description record is defined exactly when a description is present and then carries its block-string flag and content; absent, it is all zero |
| Denotation.RootsStable | pkg/astparser/parser_test.go:19-23 | appending to the arenas never changes what the root nodes already stored denote |
| Ast.Document.constructor | pkg/astparser/parser_test.go:79-86 | a new document has no root nodes and empty arenas |
| Ast.Document.Reset | pkg/astparser/parser_test.go:19-23 | Parse starts from a document with no root nodes and empty arenas |
| DirectiveLocations.Ordinal | pkg/astparser/parser_test.go:1121-1151 | the position of a location in the enum order |
| DirectiveLocations.FromName | pkg/astparser/parser_test.go:1152-1160 | a name maps to a location only when it is that location's name (`INVALID` maps to none) |
| DirectiveLocations.NameRoundTrip | pkg/astparser/parser_test.go:1102-1120 | every location is found by its own name |
| DirectiveLocations.MembersFromSpec | pkg/astparser/parser_test.go:1121-1151 | the locations listed from an ordinal on are exactly the set's members at or after it, in strictly increasing enum order |
| DirectiveLocations.Iterable | pkg/astparser/parser_test.go:1102-1151 | the walk holds exactly the set's members, each once, in strictly increasing enum order |
| DirectiveLocations.DirectiveLocationIterator.constructor | pkg/astparser/parser_test.go:1121-1151 | a new iterator has the set's members in enum order still to yield |
| DirectiveLocations.DirectiveLocationIterator.Next | pkg/astparser/parser_test.go:1121-1151 | returns true exactly while members remain; then the current location is the next one in enum order, it is consumed and added to the visited ones; visited plus remaining is always the whole walk |
| DirectiveLocations.DirectiveLocationIterator.Value | pkg/astparser/parser_test.go:1102-1151 | once a member has been visited, the value is the last visited member, and it is a member of the set |
| SelectionKindEnum.NameSlices | pkg/document/selectionkind_enum.go:19-25 | the name table slices [0:5], [5:19] and [19:33] are Field, InlineFragment and FragmentSpread |
| SelectionKindEnum.NatDecimal | pkg/document/selectionkind_enum.go:32 | decimal digits of a natural number: non-empty, digits only, no leading zero |
| SelectionKindEnum.Decimal | pkg/document/selectionkind_enum.go:32 | decimal text of an integer, starting with `-` exactly when it is negative |
| SelectionKindEnum.NatDecimalInjective | pkg/document/selectionkind_enum.go:32 | distinct naturals have distinct decimal texts (by induction on the digits) |
| SelectionKindEnum.DecimalInjective | pkg/document/selectionkind_enum.go:32 | distinct integers have distinct decimal texts |
| SelectionKindEnum.String | pkg/document/selectionkind_enum.go:27-33 | the three named kinds print their names; any other value prints `SelectionKind(n)` |
| SelectionKindEnum.ParseSelectionKind | pkg/document/selectionkind_enum.go:41-47 | the three names parse to their kinds without error; any other string gives kind 0 and the error text `<s> is not a valid SelectionKind` |
| SelectionKindEnum.RoundTrip | pkg/document/selectionkind_enum.go:21-39 | parsing the name of a named kind gives that kind back without error |
| SelectionKindEnum.ReverseRoundTrip | pkg/document/selectionkind_enum.go:21-39 | a string that parses without error is the name of the kind it parses to |
| SelectionKindEnum.FallbackNeverParses | pkg/document/selectionkind_enum.go:32-46 | the fallback text of an unnamed value never parses back |
| SelectionKindEnum.ErrorKindIsField | pkg/document/selectionkind_enum.go:46 | a failed parse returns kind 0, which is Field |
| SelectionKindEnum.StringInjective | pkg/document/selectionkind_enum.go:27-33 | String gives distinct kinds distinct texts |
| ParserExamples.NestedListTypeParses | pkg/astparser/parser_test.go:993-1023 | `[[String!]!]!` is NonNull(List(NonNull(List(NonNull(String))))), reading all 8 tokens |
| ParserExamples.NestedListTypeLayout | pkg/astparser/parser_test.go:993-1023 | that type is laid out as six Types nodes, each wrapper pointing at the node before it |
| ParserExamples.NestedListTypeTest | pkg/astparser/parser_test.go:993-1023 | parseType on `[[String!]!]!` returns ref 5 with Types[5..0] = NonNull, List, NonNull, List, NonNull, Named String |
| ParserExamples.NonNullTypeTest | pkg/astparser/parser_test.go:909-923 | parseType on `String!` returns ref 1 with Types = [Named String, NonNull(0)] |
| ParserExamples.TypeRejections | pkg/astparser/parser_test.go:1024-1044 | a leading `!`, `String!!` and `]String` are each rejected, at the offending token |
| ParserExamples.ListTypeRejections | pkg/astparser/parser_test.go:1024-1044 | `[]` and `[` are rejected at the token where the element type should be |
| ParserExamples.UnclosedListTypes | pkg/astparser/parser_test.go:1024-1044 | `[String` and `[String!` are rejected at the end of the stream, where the `]` should be |
| ParserExamples.VariableValues | pkg/astparser/parser_test.go:1163-1209 | `$foo`, `$_foo`, `$foo123` are variables stored without `$`; `$ foo` and `$123` are errors |
| ParserExamples.IntValues | pkg/astparser/parser_test.go:1210-1246 | `123` is a non-negative Int with raw `123`; `-123` is a negative Int with raw `123`; `- 123` is an error |
| ParserExamples.FloatValues | pkg/astparser/parser_test.go:1247-1283 | `13.37` and `-13.37` are Floats with raw `13.37` and the right sign; `- 13.37` is an error |
| ParserExamples.NullValue | pkg/astparser/parser_test.go:1284-1292 | `null` is the null value |
| ParserExamples.ListValueOrder | pkg/astparser/parser_test.go:1293-1355 | a list value keeps its items, a nested list included, in source order |
| ParserExamples.ObjectValueLastField | pkg/astparser/parser_test.go:1356-1412 | the last field of the object value is `list: [1]` |
| ParserExamples.NegativeFloatValue | pkg/astparser/parser_test.go:1356-1412 | `-53.211` inside the object value is one negative Float with raw `53.211`, reading two tokens |
| ParserExamples.PositiveFloatValue | pkg/astparser/parser_test.go:1356-1412 | `12.43` inside the object value is one non-negative Float with raw `12.43` |
| ParserExamples.ObjectValueLaterFields | pkg/astparser/parser_test.go:1356-1412 | the later fields of the object value keep their order |
| ParserExamples.ObjectValueOrder | pkg/astparser/parser_test.go:1356-1412 | an object value keeps its fields in source order, with their values |
| ParserExamples.SecondVariableDefinition | pkg/astparser/parser_test.go:1577-1624 | from the second variable definition on, the list holds exactly `$var2: String`, with no default value, up to `)` |
| ParserExamples.FirstVariableDefinition | pkg/astparser/parser_test.go:1577-1624 | the first variable definition, `$devicePicSize: Int = 1`, with its type and default value |
| ParserExamples.VariableDefinitionList | pkg/astparser/parser_test.go:1577-1624 | a variable definition list keeps its definitions in order |
| ParserExamples.OneDefinition | pkg/astparser/parser_test.go:19-23 | a stream that is exactly one definition is a document with that definition |
| ParserExamples.FirstDefinitionFails | pkg/astparser/parser_test.go:19-23 | a stream whose first definition fails is rejected |
| ParserExamples.UnionWithMembers | pkg/astparser/parser_test.go:846-876 | `union SearchResult = Photo | Person` has the members Photo and Person, in order |
| ParserExamples.UnionWithoutMembers | pkg/astparser/parser_test.go:877-889 | `union SearchResult` without `=` is a union with no members, reading both tokens |
| ParserExamples.UnionMemberErrors | pkg/astparser/parser_test.go:890-895 | `= Photo |` with a dangling `|` and a bare `=` are errors |
| ParserExamples.UnionMembersTest | pkg/astparser/parser_test.go:846-876 | parse stores the union with two member refs, Named Photo then Named Person |
| ParserExamples.ImplementsList | pkg/astparser/parser_test.go:665-690 | `implements & Foo & Bar` yields Foo and Bar |
| ParserExamples.ImplementsLeadingAmpersand | pkg/astparser/parser_test.go:665-690 | a leading `&` is accepted in an object type's implements list |
| ParserExamples.DanglingAmpersandList | pkg/astparser/parser_test.go:772-774 | `implements Foo & {}` fails at the `{` after the `&` |
| ParserExamples.ImplementsDanglingAmpersand | pkg/astparser/parser_test.go:772-774 | `type Person implements Foo & {}` is rejected |
| ParserExamples.LocationsParse | pkg/astparser/parser_test.go:1101-1161 | `directive @name on <locations>` is a directive definition with those locations |
| ParserExamples.SingleLocation | pkg/astparser/parser_test.go:1102-1120 | `directive @example on FIELD` has exactly the FIELD location |
| ParserExamples.ThreeLocationList | pkg/astparser/parser_test.go:1121-1151 | `FIELD | SCALAR | SCHEMA` is the set of those three locations |
| ParserExamples.MultipleLocations | pkg/astparser/parser_test.go:1121-1151 | the directive definition with three locations parses |
| DirectiveLocations.NothingFrom | pkg/astparser/parser_test.go:1121-1151 | no location is listed from an ordinal past all members |
| ParserExamples.LocationIterationOrder | pkg/astparser/parser_test.go:1121-1151 | FIELD alone iterates as FIELD; FIELD, SCALAR, SCHEMA iterate as FIELD, SCHEMA, SCALAR (enum order) |
| ParserExamples.LocationsFail | pkg/astparser/parser_test.go:1152-1160 | a directive definition whose locations fail is rejected |
| ParserExamples.TrailingPipeList | pkg/astparser/parser_test.go:1152-1160 | a trailing `|` fails the location list at the end of the stream |
| ParserExamples.TrailingPipe | pkg/astparser/parser_test.go:1152-1160 | a directive definition ending in `|` is rejected |
| ParserExamples.MissingOrInvalidLocation | pkg/astparser/parser_test.go:1152-1160 | `on` without a location and `on INVALID` are rejected |
| ParserExamples.MultipleLocationsTest | pkg/astparser/parser_test.go:1121-1151 | parse stores the three locations, and iterating them yields FIELD, SCHEMA, SCALAR and then stops |
| ParserExamples.DescribedScalar | pkg/astparser/parser_test.go:523-537 | a quoted description in front of `scalar JSON` belongs to it, without quotes, not a block string |
| ParserExamples.PlainScalar | pkg/astparser/parser_test.go:514-522 | `scalar JSON` has no description |
| ParserExamples.ScalarDescriptionTest | pkg/astparser/parser_test.go:523-537 | parse stores the description as defined, not a block string, with content `JSON scalar description` |
| ParserExamples.ScalarWithoutDescriptionTest | pkg/astparser/parser_test.go:514-522 | parse stores scalar JSON with an undefined description |
| ParserExamples.AgeFieldParses | pkg/astparser/parser_test.go:603-611 | the quoted description belongs to the `age: Int` field |
| ParserExamples.DateOfBirthFieldParses | pkg/astparser/parser_test.go:627-635 | the block string description belongs to the `dateOfBirth: Date` field, content raw |
| ParserExamples.PersonFields | pkg/astparser/parser_test.go:553-643 | on the Person input reduced to its two described fields, those fields are read in order (the full input is stated by DefinitionExamples.ObjectTypeDefinition) |
| ParserExamples.ObjectWithFields | pkg/astparser/parser_test.go:552-775 | `type Name { fields }` is one object type with those fields and no interfaces or directives |
| ParserExamples.DescribedFields | pkg/astparser/parser_test.go:553-643 | on the Person input reduced to its two described fields, the type has the age and dateOfBirth fields with their descriptions (the full input is stated by DefinitionExamples.ObjectTypeDefinition) |
| ParserExamples.DescribedFieldsTest | pkg/astparser/parser_test.go:553-643 | on the Person input reduced to its two described fields, parse stores age's description as quoted, defined, content without quotes, and dateOfBirth's as a block string with its raw content |
| ParserExamples.FragmentSpreads | pkg/astparser/parser_test.go:1726-1742 | `...friendFields @foo` is a spread of friendFields with directive foo; a spread named `on` is an error |
| DefinitionExamples.EmptyDocument | pkg/astparser/parser_test.go:135-137 | an empty token stream is a document with no definitions, reading nothing |
| DefinitionExamples.EmptyInputTest | pkg/astparser/parser_test.go:135-137 | parse on empty input reports no error and stores no root nodes |
| DefinitionExamples.RootOperationsInOrder | pkg/astparser/parser_test.go:139-180 | `query: Query mutation: Mutation subscription: Subscription }` yields the three root operation types, each with its kind and named type, in source order, and stops after the `}` |
| DefinitionExamples.SimpleSchema | pkg/astparser/parser_test.go:139-180 | `schema { query: Query mutation: Mutation subscription: Subscription }` is a document of one schema definition, not an extension, without directives, with the three root operation types in order |
| DefinitionExamples.SchemaDirectives | pkg/astparser/parser_test.go:181-212 | `@foo @bar(baz: "bal")` are two directives in order; `bar` has the one argument `baz` whose value is the quoted string `bal` |
| DefinitionExamples.SchemaWithDirectives | pkg/astparser/parser_test.go:181-212 | a schema with the directives `@foo @bar(baz: "bal")` and the root type `query: Query` is one schema definition holding both |
| DefinitionExamples.SchemaBodyMissing | pkg/astparser/parser_test.go:213-215 | `schema` alone is rejected at the end of the input, where the `{` should be |
| DefinitionExamples.SchemaBodyUnclosed | pkg/astparser/parser_test.go:216-218 | `schema {` is rejected at the end of the input, where a root operation type or `}` should be |
| DefinitionExamples.SchemaDirectiveArgumentsUnclosed | pkg/astparser/parser_test.go:219-221 | `schema @foo( {}` is rejected at the `{` where an argument name should be |
| DefinitionExamples.SchemaDirectiveWithoutAt | pkg/astparser/parser_test.go:222-224 | `schema foo {}` is rejected at `foo`: a name without `@` is no directive and no schema body |
| DefinitionExamples.SimpleSchemaExtension | pkg/astparser/parser_test.go:227-264 | `extend schema { query: Query mutation: Mutation subscription: Subscription }` is a document of one schema flagged as an extension, with the three root operation types in order |
| DefinitionExamples.TypeDefinitionFirst | pkg/astparser/parser_test.go:19-23 | a definition without description that starts with none of the keywords of the other definitions is read as a type-system definition |
| DefinitionExamples.TypeExtensionFirst | pkg/astparser/parser_test.go:226-512 | `extend` followed by anything but `schema` is read as the type-system definition after it, flagged as an extension |
| DefinitionExamples.PlainFieldType | pkg/astparser/parser_test.go:553-643 | after a field name without arguments, `: Type` yields the field with that named type and no directives |
| DefinitionExamples.PlainFieldDefinition | pkg/astparser/parser_test.go:553-643 | an undescribed field `name: Type` with nothing after the type is one field definition of that name and named type |
| DefinitionExamples.OneFieldDefinition | pkg/astparser/parser_test.go:803-826 | the fields definition `{ name: String }` holds exactly that one field |
| DefinitionExamples.BareDirective | pkg/astparser/parser_test.go:538-551 | a directive `@name` with no `(` and no further `@` is one directive without arguments |
| DefinitionExamples.FieldsOne | pkg/astparser/parser_test.go:803-826 | one field definition followed by `}` is a field list of exactly that field, ending after the `}` |
| DefinitionExamples.FieldsThree | pkg/astparser/parser_test.go:553-643 | three field definitions in a row followed by `}` are a field list of exactly those three, in order, ending after the `}` |
| DefinitionExamples.UndescribedPlainField | pkg/astparser/parser_test.go:553-643 | `name: String` is one field definition without description, arguments or directives, three tokens long |
| DefinitionExamples.DescribedPlainField | pkg/astparser/parser_test.go:553-643 | a quoted or block-string description in front of `name: Type` belongs to that field, whose definition is four tokens long |
| DefinitionExamples.PersonObjectFields | pkg/astparser/parser_test.go:553-643 | the fields of Person are `name`, `age` with its quoted description and `dateOfBirth` with its raw block-string description, in that order, and the list ends after the `}` |
| DefinitionExamples.PersonInterfaces | pkg/astparser/parser_test.go:553-643 | `implements Foo & Bar` yields Foo and Bar, in order |
| DefinitionExamples.PersonObjectType | pkg/astparser/parser_test.go:553-643 | `type Person implements Foo & Bar { … }` at any position, with either extension flag, is an object type named Person carrying that flag, with both interfaces, no directives and the three fields, 19 tokens long |
| DefinitionExamples.ObjectTypeDefinition | pkg/astparser/parser_test.go:552-643 | the whole `type Person implements Foo & Bar { … }` input is a document of that one object type, not an extension |
| DefinitionExamples.ObjectTypeExtension | pkg/astparser/parser_test.go:266-358 | the whole `extend type Person …` input is a document of that one object type, flagged as an extension |
| DefinitionExamples.ObjectWithDirectivesEmptyBody | pkg/astparser/parser_test.go:644-664 | `type Person @foo @bar {}` is a document of one object type named Person with the directives foo and bar, in order, without arguments, and no interfaces or fields |
| DefinitionExamples.DescribedInputValue | pkg/astparser/parser_test.go:691-771 | a quoted or block-string description in front of `name: Type` belongs to that input value, which has no default value and no directives |
| DefinitionExamples.NonNullInputValue | pkg/astparser/parser_test.go:691-771 | `a: String!` is one input value whose type is non-null around the named type String |
| DefinitionExamples.InputValuesThree | pkg/astparser/parser_test.go:691-771 | three input value definitions followed by the closing token are a list of exactly those three, in order, ending after the closing token |
| DefinitionExamples.ArgumentsDefinitionInOrder | pkg/astparser/parser_test.go:691-771 | `(a: String! "b description" b: Int """c description""" c: Float)` yields the arguments a, b and c in order, with a non-null, b's quoted and c's raw block-string description |
| DefinitionExamples.StringDescribedField | pkg/astparser/parser_test.go:691-771 | a quoted string in front of a field name is that field's description, not a block string, and the field's arguments are read next |
| DefinitionExamples.FieldArgumentsThenType | pkg/astparser/parser_test.go:691-771 | after a field's name and arguments, the `:` and the type complete the field definition with those arguments |
| DefinitionExamples.TypedFieldAfterArguments | pkg/astparser/parser_test.go:691-771 | `: Type` after the arguments yields the field with those arguments, that named type and no directives |
| DefinitionExamples.FieldWithArgumentsDefinition | pkg/astparser/parser_test.go:691-771 | `"name description" name(…): String` is one field definition with that description, the three arguments in order and the type String |
| DefinitionExamples.FieldWithArgumentsOnly | pkg/astparser/parser_test.go:691-771 | the fields definition `{ "name description" name(…): String }` holds exactly that one field |
| DefinitionExamples.ObjectWithArgumentsField | pkg/astparser/parser_test.go:691-771 | `type Person { … }` with that field is one object type named Person without interfaces or directives |
| DefinitionExamples.InputValueDefinitionList | pkg/astparser/parser_test.go:691-771 | the whole input is a document of that one object type, not an extension, whose one field carries the three argument definitions in order |
| DefinitionExamples.InterfaceDefinition | pkg/astparser/parser_test.go:804-826 | `interface NamedEntity @foo { name: String }` is one interface with its name, the directive `foo` and the one field |
| DefinitionExamples.InterfaceTypeExtension | pkg/astparser/parser_test.go:360-383 | `extend interface NamedEntity @foo { name: String }` is the same interface, flagged as an extension |
| DefinitionExamples.DescribedInterface | pkg/astparser/parser_test.go:827-844 | the quoted description in front of `interface NamedEntity { name: String }` belongs to the interface |
| DefinitionExamples.ScalarWithDirective | pkg/astparser/parser_test.go:538-551 | `scalar JSON @foo` is one scalar named JSON with the directive `foo` and no description |
| DefinitionExamples.ScalarTypeExtension | pkg/astparser/parser_test.go:385-398 | `extend scalar JSON @foo` is that scalar, flagged as an extension |
| DefinitionExamples.UnionTypeExtension | pkg/astparser/parser_test.go:400-431 | `extend union SearchResult = Photo | Person` is one union extension with exactly Photo and Person as members, in order |
| DefinitionExamples.PlainEnumValue | pkg/astparser/parser_test.go:1047-1100 | an enum value name with no `@` after it is one enum value without description or directives |
| DefinitionExamples.DescribedEnumValue | pkg/astparser/parser_test.go:1047-1100 | `"description" NAME @directive` is one enum value with that description and directive |
| DefinitionExamples.DirectionOtherValues | pkg/astparser/parser_test.go:1047-1100 | after `NORTH` the values are `EAST`, `SOUTH` and the described `WEST @foo`, up to the `}` |
| DefinitionExamples.DescribedLastEnumValue | pkg/astparser/parser_test.go:1047-1100 | a described last value with its directive, and the `}` after it, end the value list |
| DefinitionExamples.DirectionLastValues | pkg/astparser/parser_test.go:1047-1100 | the last two values are `SOUTH`, then the described `WEST @foo`, and the `}` follows |
| DefinitionExamples.DirectionValuesInOrder | pkg/astparser/parser_test.go:1047-1100 | `{ NORTH EAST SOUTH "describes WEST" WEST @foo }` yields the four values in source order; only WEST has a description and a directive |
| DefinitionExamples.DirectionEnumType | pkg/astparser/parser_test.go:1047-1100 | `enum Direction @bar { … }` at any position, with any description and either extension flag, is an enum named Direction with that description and flag, the directive bar and the four values in order |
| DefinitionExamples.EnumDefinition | pkg/astparser/parser_test.go:1047-1100 | `"enums" enum Direction @bar { … }` is one described enum named Direction with the directive `bar` and its four values in order |
| DefinitionExamples.EnumTypeExtension | pkg/astparser/parser_test.go:433-485 | `extend enum Direction @bar { … }` is that enum, without description, flagged as an extension |
| DefinitionExamples.DefaultedInputValue | pkg/astparser/parser_test.go:777-802 | `name: String = "Gopher"` is one input value with that type and the quoted string as its default value |
| DefinitionExamples.DefaultedFieldOnly | pkg/astparser/parser_test.go:777-802 | the input fields `{ name: String = "Gopher" }` hold exactly that one field |
| DefinitionExamples.InputObjectWithDefaultedField | pkg/astparser/parser_test.go:487-512 | `input Person { name: String = "Gopher" }` is one input object with that field, whichever extension flag is asked for |
| DefinitionExamples.InputObjectDefinition | pkg/astparser/parser_test.go:777-802 | `input Person { name: String = "Gopher" }` is a document of that one input object, not an extension |
| DefinitionExamples.InputObjectTypeExtension | pkg/astparser/parser_test.go:487-512 | `extend input Person { name: String = "Gopher" }` is that input object, flagged as an extension |
| OperationExamples.LeafField | pkg/astparser/parser_test.go:1415-1454 | a name followed by none of `:`, `(`, `@` and `{` is a field without alias, arguments, directives or selections |
| OperationExamples.NestedField | pkg/astparser/parser_test.go:1626-1724 | a name followed by a selection set is a field holding exactly that set |
| OperationExamples.SelectionThen | pkg/astparser/parser_test.go:1626-1724 | a selection followed by more selections up to `}` puts the first one in front of the rest |
| OperationExamples.SoleSelection | pkg/astparser/parser_test.go:1415-1454 | `{ selection }` is a selection set holding exactly that one selection |
| OperationExamples.LastLeaf | pkg/astparser/parser_test.go:1555-1576 | a last leaf field and the `}` after it close a selection list with that one field |
| OperationExamples.LeafBlock | pkg/astparser/parser_test.go:1415-1454 | `{ name }` is a selection set holding one leaf field |
| OperationExamples.LastNestedLeaf | pkg/astparser/parser_test.go:1555-1576 | `name { leaf }` as the last selection is one field holding one leaf field |
| OperationExamples.OperationFirst | pkg/astparser/parser_test.go:1414-1576 | a definition that starts with `query`, `mutation`, `subscription` or `{` is read as an operation |
| OperationExamples.NamedOperationHead | pkg/astparser/parser_test.go:1455-1474 | an operation keyword followed by a name gives an operation of that kind carrying that name |
| OperationExamples.SelectionsOnly | pkg/astparser/parser_test.go:1414-1576 | an operation without variables or directives holds exactly the selection set that follows its name |
| OperationExamples.VariablesThenSelections | pkg/astparser/parser_test.go:1555-1576 | an operation with variables and no directives holds the variable list and then the selection set |
| OperationExamples.UnnamedOperation | pkg/astparser/parser_test.go:1415-1434 | `query {field}`, `mutation {field}` and `subscription {field}` are one operation of the keyword's kind with the empty name and the one leaf field |
| OperationExamples.NamedOperation | pkg/astparser/parser_test.go:1455-1474 | `query Query1 {field}` and the named mutation and subscription carry their name, their kind and the one leaf field |
| OperationExamples.ShorthandQuery | pkg/astparser/parser_test.go:1435-1454 | the shorthand `{field}` is a query with the empty name and the one leaf field |
| OperationExamples.SingleVariable | pkg/astparser/parser_test.go:1555-1576 | `($name: Type)` is one variable definition without default value or directives |
| OperationExamples.VariableArgument | pkg/astparser/parser_test.go:1555-1576 | `(name: $variable)` is one argument whose value is that variable |
| OperationExamples.InputIsName | pkg/astparser/parser_test.go:1555-1576 | the keyword `input` can stand for a name |
| OperationExamples.StorySelections | pkg/astparser/parser_test.go:1555-1576 | the selections of `story` are `likers { count }` then `likeSentence { text }` |
| OperationExamples.StoryBlock | pkg/astparser/parser_test.go:1555-1576 | `{ story { … } }` is a selection set holding the one field `story` |
| OperationExamples.StoryLikeSubscribeBlock | pkg/astparser/parser_test.go:1555-1576 | the subscription's selection set holds `storyLikeSubscribe(input: $input)` with its argument and nested selections |
| OperationExamples.OneVariableOperation | pkg/astparser/parser_test.go:1555-1576 | a named operation with one variable and no directives holds that variable and the selection set after it |
| OperationExamples.ComplexNestedSubscription | pkg/astparser/parser_test.go:1555-1576 | the complex subscription is one subscription named StoryLikeSubscription with the variable `$input: StoryLikeSubscribeInput` and the nested field tree of the test |
| OperationExamples.OnPersonFragment | pkg/astparser/parser_test.go:1626-1724 | `... on Person @foo { personID }` is one inline fragment with its type condition, its directive and its field |
| OperationExamples.PersonFragmentSpread | pkg/astparser/parser_test.go:1626-1724 | `...personFragment @bar` is one fragment spread with its directive |
| OperationExamples.BirthdayField | pkg/astparser/parser_test.go:1626-1724 | `birthday { month day }` is one field holding its two leaf fields in order |
| OperationExamples.MeFields | pkg/astparser/parser_test.go:1626-1724 | after the fragments, the fields of `me` are id, firstName, lastName, birthday and friends, in order |
| OperationExamples.MeSelections | pkg/astparser/parser_test.go:1626-1724 | the selections of `me` are the inline fragment, the spread, then the five fields, in order |
| OperationExamples.MeField | pkg/astparser/parser_test.go:1626-1724 | `me` is one field holding those selections |
| OperationExamples.SelectionSetNo8 | pkg/astparser/parser_test.go:1626-1724 | the whole selection set of test No 8 holds the one field `me` with its seven selections in order |
| OperationExamples.InlineFragmentOnUser | pkg/astparser/parser_test.go:1744-1778 | `on User { friends { count } }` is one inline fragment with type condition User, no directives, and the field friends holding count |
| OperationExamples.FragmentFirst | pkg/astparser/parser_test.go:1781-1811 | a definition that starts with `fragment` is read as a fragment definition |
| OperationExamples.FragmentWithSelections | pkg/astparser/parser_test.go:1781-1811 | `fragment Name on Type { … }` is a fragment definition with that name and type condition, no directives, and the selection set |
| OperationExamples.ProfilePicField | pkg/astparser/parser_test.go:1781-1811 | `profilePic(size: 50)` is a field with the one integer argument and no selections, and the `}` follows |
| OperationExamples.FriendFieldsSelections | pkg/astparser/parser_test.go:1781-1811 | the selection set of friendFields is id, name, then profilePic(size: 50) |
| OperationExamples.FragmentDefinition | pkg/astparser/parser_test.go:1781-1811 | `fragment friendFields on User { id name profilePic(size: 50) }` is a document of that one fragment definition |

## Left out

- The lexer is left out. Tokens are given as (keyword, literal, spaced), and
  `spaced` records whether ignored characters precede the token. Byte
  offsets, `ByteSliceReference`s and the `position.Position` carried by
  errors are left out too: a parse error names the index of the offending
  token. The `tokenize` test (`pkg/astparser/parser_test.go:102-134`)
  concerns the lexer.
- Block-string dedent is not modelled: the parser tests expect the raw
  content.
- String escape processing is not modelled (`pkg/parser/string_value_parser_test.go`
  is not part of this model).
- The Parser keeps state between runs: the model creates a fresh Parser
  per `Parse` and resets the Document. Pooling and reuse across goroutines
  are not modelled.
- `TestParseStarwars`, the benchmarks and loading fixture files from disk
  (`pkg/astparser/parser_test.go:1813-1956`) are I/O and timing. They are
  left out.
- `pkg/proxy/http/staticproxy.go`, `pkg/proxy/config.go` and
  `pkg/parser/variable_value_parser.go` are not part of this model.
- A Boolean value is stored as ref 1 for `true` and 0 for `false`. The tests
  do not pin this down.
- Empty bodies (`{}`) of object types, interfaces, input objects, enums,
  schemas and selection sets are accepted. The object case is pinned down by
  `pkg/astparser/parser_test.go:644-664` (DefinitionExamples.ObjectWithDirectivesEmptyBody); the others follow it.
- The test cases are stated over token streams with the keywords the lexer
  gives for each test's input (`DefinitionExamples`, `OperationExamples`
  and `ParserExamples`). The arena layout is checked by methods that run
  `Parse` only for the types, union members, directive locations,
  descriptions and the empty input. For the other cases, the parser's
  contracts carry the grammar's result over to the arenas.
- The grammar functions' own `ensures` state only progress and shape
  (`Grammar.TypeAt` and the rest). What each production produces is stated
  by the lemmas of the three example modules and by the parser methods'
  contracts, which tie the arenas to the functions.

/**
 * Abstract syntax trees of GraphQL documents: what a token stream means,
 * independent of how the parser lays nodes out in the Document's arenas.
 * The grammar functions build these trees, and the parser is proved to
 * store arena nodes that denote them.
 */
module Syntax {
  import opened Wrappers
  import opened DirectiveLocations

  /** Named, List and NonNull types (section 2.11 of the GraphQL specification). */
  datatype TypeTree = NamedT(name: string) | ListT(ofType: TypeTree) | NonNullT(ofType: TypeTree)

  /** Input values (section 2.9 of the GraphQL specification); a number keeps its sign as a flag, apart from its digits. */
  datatype ValueTree =
    | VariableV(name: string)
    | IntV(negative: bool, raw: string)
    | FloatV(negative: bool, raw: string)
    | StringV(blockString: bool, content: string)
    | BooleanV(b: bool)
    | NullV
    | EnumV(name: string)
    | ListV(items: seq<ValueTree>)
    | ObjectV(fields: seq<ObjectFieldTree>)

  datatype ObjectFieldTree = ObjectFieldTree(name: string, value: ValueTree)

  datatype ArgumentTree = ArgumentTree(name: string, value: ValueTree)

  datatype DirectiveTree = DirectiveTree(name: string, arguments: seq<ArgumentTree>)

  /** A description string in front of a definition, field, argument or enum value. */
  datatype DescriptionTree = NoDescription | Described(blockString: bool, content: string)

  datatype InputValueTree = InputValueTree(
    description: DescriptionTree, name: string, valueType: TypeTree,
    defaultValue: Option<ValueTree>, directives: seq<DirectiveTree>)

  datatype FieldDefinitionTree = FieldDefinitionTree(
    description: DescriptionTree, name: string, arguments: seq<InputValueTree>,
    fieldType: TypeTree, directives: seq<DirectiveTree>)

  datatype EnumValueTree = EnumValueTree(description: DescriptionTree, name: string, directives: seq<DirectiveTree>)

  datatype OperationKind = QueryOp | MutationOp | SubscriptionOp

  datatype RootOperationTree = RootOperationTree(operation: OperationKind, namedType: string)

  datatype VariableDefinitionTree = VariableDefinitionTree(
    name: string, variableType: TypeTree, defaultValue: Option<ValueTree>, directives: seq<DirectiveTree>)

  /** Field, fragment spread and inline fragment selections (section 2.4 of the GraphQL specification). */
  datatype SelectionTree =
    | FieldT(alias: Option<string>, name: string, arguments: seq<ArgumentTree>,
             directives: seq<DirectiveTree>, subSelections: SubSelections)
    | SpreadT(fragmentName: string, directives: seq<DirectiveTree>)
    | InlineT(typeCondition: Option<string>, directives: seq<DirectiveTree>, selections: seq<SelectionTree>)

  /** A field's own selection set, which a leaf field does not have. */
  datatype SubSelections = Leaf | Nested(selections: seq<SelectionTree>)

  /** A top-level definition; `extension` tells an `extend ...` apart from the definition it extends. */
  datatype DefinitionTree =
    | SchemaT(extension: bool, directives: seq<DirectiveTree>, operations: seq<RootOperationTree>)
    | ObjectT(extension: bool, description: DescriptionTree, name: string, interfaces: seq<string>,
              directives: seq<DirectiveTree>, fields: seq<FieldDefinitionTree>)
    | InterfaceT(extension: bool, description: DescriptionTree, name: string,
                 directives: seq<DirectiveTree>, fields: seq<FieldDefinitionTree>)
    | UnionT(extension: bool, description: DescriptionTree, name: string,
             directives: seq<DirectiveTree>, members: seq<string>)
    | EnumT(extension: bool, description: DescriptionTree, name: string,
            directives: seq<DirectiveTree>, values: seq<EnumValueTree>)
    | InputObjectT(extension: bool, description: DescriptionTree, name: string,
                   directives: seq<DirectiveTree>, inputFields: seq<InputValueTree>)
    | ScalarT(extension: bool, description: DescriptionTree, name: string, directives: seq<DirectiveTree>)
    | DirectiveDefT(description: DescriptionTree, name: string, arguments: seq<InputValueTree>, locations: Locations)
    | OperationT(operation: OperationKind, name: string, variables: seq<VariableDefinitionTree>,
                 directives: seq<DirectiveTree>, selections: seq<SelectionTree>)
    | FragmentT(name: string, typeCondition: string, directives: seq<DirectiveTree>, selections: seq<SelectionTree>)
}

/**
 * The arena-based document the parser fills: every node kind lives in its
 * own sequence, and nodes point at one another by index ("ref") into
 * those sequences, never by pointer.
 */
module Ast {
  import opened Wrappers
  import opened DirectiveLocations

  /** An index into one of the Document's arenas. */
  type Ref = nat

  datatype NodeKind =
    | NodeKindSchemaDefinition | NodeKindSchemaExtension
    | NodeKindObjectTypeDefinition | NodeKindObjectTypeExtension
    | NodeKindInterfaceTypeDefinition | NodeKindInterfaceTypeExtension
    | NodeKindUnionTypeDefinition | NodeKindUnionTypeExtension
    | NodeKindEnumTypeDefinition | NodeKindEnumTypeExtension
    | NodeKindInputObjectTypeDefinition | NodeKindInputObjectTypeExtension
    | NodeKindScalarTypeDefinition | NodeKindScalarTypeExtension
    | NodeKindDirectiveDefinition | NodeKindOperationDefinition | NodeKindFragmentDefinition

  /** A top-level definition: which arena it lives in, and where. */
  datatype RootNode = RootNode(kind: NodeKind, ref: Ref)

  datatype OperationType = OperationTypeQuery | OperationTypeMutation | OperationTypeSubscription

  datatype ValueKind =
    | ValueKindVariable | ValueKindInteger | ValueKindFloat | ValueKindString | ValueKindBoolean
    | ValueKindNull | ValueKindEnum | ValueKindList | ValueKindObject

  /**
   * A value: its kind and a ref into that kind's arena. A boolean's ref is
   * 1 for true and 0 for false; null's ref is 0.
   */
  datatype Value = Value(kind: ValueKind, ref: Ref)

  datatype IntValue = IntValue(negative: bool, raw: string)
  datatype FloatValue = FloatValue(negative: bool, raw: string)
  datatype StringValue = StringValue(blockString: bool, content: string)
  datatype VariableValue = VariableValue(name: string)
  datatype EnumValue = EnumValue(name: string)
  /** Refs into the Values arena, in source order. */
  datatype ListValue = ListValue(refs: seq<Ref>)
  /** Refs into the ObjectFields arena, in source order. */
  datatype ObjectValue = ObjectValue(refs: seq<Ref>)
  datatype ObjectField = ObjectField(name: string, value: Value)

  /** A Types arena node; a list or non-null type points at the type it wraps. */
  datatype Type = NamedType(name: string) | ListType(ofType: Ref) | NonNullType(ofType: Ref)

  datatype Argument = Argument(name: string, value: Value)
  datatype Directive = Directive(name: string, arguments: seq<Ref>)

  datatype Description = Description(isDefined: bool, isBlockString: bool, content: string)

  datatype InputValueDefinition = InputValueDefinition(
    description: Description, name: string, typeRef: Ref, defaultValue: Option<Value>, directives: seq<Ref>)

  datatype FieldDefinition = FieldDefinition(
    description: Description, name: string, argumentsDefinition: seq<Ref>, typeRef: Ref, directives: seq<Ref>)

  datatype EnumValueDefinition = EnumValueDefinition(description: Description, enumValue: string, directives: seq<Ref>)

  // A type extension is stored with the same record as the definition it extends.
  datatype ObjectTypeDefinition = ObjectTypeDefinition(
    description: Description, name: string, implementsInterfaces: seq<Ref>, directives: seq<Ref>, fieldsDefinition: seq<Ref>)
  datatype InterfaceTypeDefinition = InterfaceTypeDefinition(
    description: Description, name: string, directives: seq<Ref>, fieldsDefinition: seq<Ref>)
  datatype UnionTypeDefinition = UnionTypeDefinition(
    description: Description, name: string, directives: seq<Ref>, unionMemberTypes: seq<Ref>)
  datatype EnumTypeDefinition = EnumTypeDefinition(
    description: Description, name: string, directives: seq<Ref>, enumValuesDefinition: seq<Ref>)
  datatype InputObjectTypeDefinition = InputObjectTypeDefinition(
    description: Description, name: string, directives: seq<Ref>, inputFieldsDefinition: seq<Ref>)
  datatype ScalarTypeDefinition = ScalarTypeDefinition(description: Description, name: string, directives: seq<Ref>)
  datatype DirectiveDefinition = DirectiveDefinition(
    description: Description, name: string, argumentsDefinition: seq<Ref>, directiveLocations: Locations)

  datatype SchemaDefinition = SchemaDefinition(directives: seq<Ref>, rootOperationTypeDefinitions: seq<Ref>)
  datatype RootOperationTypeDefinition = RootOperationTypeDefinition(operationType: OperationType, namedType: string)

  datatype OperationDefinition = OperationDefinition(
    operationType: OperationType, name: string, variableDefinitions: seq<Ref>, directives: seq<Ref>, selectionSet: seq<Ref>)
  /** `variable` is a ref into VariableValues, `typeRef` into Types. */
  datatype VariableDefinition = VariableDefinition(
    variable: Ref, typeRef: Ref, defaultValue: Option<Value>, directives: seq<Ref>)

  datatype SelectionKind = SelectionKindField | SelectionKindInlineFragment | SelectionKindFragmentSpread
  /** A selection: its kind and a ref into Fields, InlineFragments or FragmentSpreads. */
  datatype Selection = Selection(kind: SelectionKind, ref: Ref)
  /** `selectionSet` holds refs into Selections; it is absent when the field has no sub-selection. */
  datatype Field = Field(
    alias: Option<string>, name: string, arguments: seq<Ref>, directives: seq<Ref>, selectionSet: Option<seq<Ref>>)
  /** `typeCondition` is a ref into Types. */
  datatype InlineFragment = InlineFragment(typeCondition: Option<Ref>, directives: seq<Ref>, selectionSet: seq<Ref>)
  datatype FragmentSpread = FragmentSpread(fragmentName: string, directives: seq<Ref>)
  datatype FragmentDefinition = FragmentDefinition(
    name: string, typeCondition: Ref, directives: seq<Ref>, selectionSet: seq<Ref>)

  /** The contents of every arena at one moment. */
  datatype Arenas = Arenas(
    schemaDefinitions: seq<SchemaDefinition>,
    schemaExtensions: seq<SchemaDefinition>,
    rootOperationTypeDefinitions: seq<RootOperationTypeDefinition>,
    directives: seq<Directive>,
    arguments: seq<Argument>,
    objectTypeDefinitions: seq<ObjectTypeDefinition>,
    objectTypeExtensions: seq<ObjectTypeDefinition>,
    fieldDefinitions: seq<FieldDefinition>,
    types: seq<Type>,
    inputValueDefinitions: seq<InputValueDefinition>,
    inputObjectTypeDefinitions: seq<InputObjectTypeDefinition>,
    inputObjectTypeExtensions: seq<InputObjectTypeDefinition>,
    scalarTypeDefinitions: seq<ScalarTypeDefinition>,
    scalarTypeExtensions: seq<ScalarTypeDefinition>,
    interfaceTypeDefinitions: seq<InterfaceTypeDefinition>,
    interfaceTypeExtensions: seq<InterfaceTypeDefinition>,
    unionTypeDefinitions: seq<UnionTypeDefinition>,
    unionTypeExtensions: seq<UnionTypeDefinition>,
    enumTypeDefinitions: seq<EnumTypeDefinition>,
    enumTypeExtensions: seq<EnumTypeDefinition>,
    enumValueDefinitions: seq<EnumValueDefinition>,
    directiveDefinitions: seq<DirectiveDefinition>,
    values: seq<Value>,
    listValues: seq<ListValue>,
    variableValues: seq<VariableValue>,
    stringValues: seq<StringValue>,
    intValues: seq<IntValue>,
    floatValues: seq<FloatValue>,
    enumValues: seq<EnumValue>,
    objectFields: seq<ObjectField>,
    objectValues: seq<ObjectValue>,
    selections: seq<Selection>,
    fields: seq<Field>,
    inlineFragments: seq<InlineFragment>,
    fragmentSpreads: seq<FragmentSpread>,
    operationDefinitions: seq<OperationDefinition>,
    variableDefinitions: seq<VariableDefinition>,
    fragmentDefinitions: seq<FragmentDefinition>)

  const EmptyArenas := Arenas([], [], [], [], [], [], [], [], [], [], [], [], [], [], [], [], [], [], [], [],
                              [], [], [], [], [], [], [], [], [], [], [], [], [], [], [], [], [], [])

  /** Names one arena of the Document. */
  datatype ArenaKind =
    | SchemaDefinitionsArena
    | SchemaExtensionsArena
    | RootOperationTypeDefinitionsArena
    | DirectivesArena
    | ArgumentsArena
    | ObjectTypeDefinitionsArena
    | ObjectTypeExtensionsArena
    | FieldDefinitionsArena
    | TypesArena
    | InputValueDefinitionsArena
    | InputObjectTypeDefinitionsArena
    | InputObjectTypeExtensionsArena
    | ScalarTypeDefinitionsArena
    | ScalarTypeExtensionsArena
    | InterfaceTypeDefinitionsArena
    | InterfaceTypeExtensionsArena
    | UnionTypeDefinitionsArena
    | UnionTypeExtensionsArena
    | EnumTypeDefinitionsArena
    | EnumTypeExtensionsArena
    | EnumValueDefinitionsArena
    | DirectiveDefinitionsArena
    | ValuesArena
    | ListValuesArena
    | VariableValuesArena
    | StringValuesArena
    | IntValuesArena
    | FloatValuesArena
    | EnumValuesArena
    | ObjectFieldsArena
    | ObjectValuesArena
    | SelectionsArena
    | FieldsArena
    | InlineFragmentsArena
    | FragmentSpreadsArena
    | OperationDefinitionsArena
    | VariableDefinitionsArena
    | FragmentDefinitionsArena

  /** The arena `kind` of `a` is a prefix of the same arena of `b`. */
  predicate PrefixAt(a: Arenas, b: Arenas, kind: ArenaKind) {
    match kind
    case SchemaDefinitionsArena => a.schemaDefinitions <= b.schemaDefinitions
    case SchemaExtensionsArena => a.schemaExtensions <= b.schemaExtensions
    case RootOperationTypeDefinitionsArena => a.rootOperationTypeDefinitions <= b.rootOperationTypeDefinitions
    case DirectivesArena => a.directives <= b.directives
    case ArgumentsArena => a.arguments <= b.arguments
    case ObjectTypeDefinitionsArena => a.objectTypeDefinitions <= b.objectTypeDefinitions
    case ObjectTypeExtensionsArena => a.objectTypeExtensions <= b.objectTypeExtensions
    case FieldDefinitionsArena => a.fieldDefinitions <= b.fieldDefinitions
    case TypesArena => a.types <= b.types
    case InputValueDefinitionsArena => a.inputValueDefinitions <= b.inputValueDefinitions
    case InputObjectTypeDefinitionsArena => a.inputObjectTypeDefinitions <= b.inputObjectTypeDefinitions
    case InputObjectTypeExtensionsArena => a.inputObjectTypeExtensions <= b.inputObjectTypeExtensions
    case ScalarTypeDefinitionsArena => a.scalarTypeDefinitions <= b.scalarTypeDefinitions
    case ScalarTypeExtensionsArena => a.scalarTypeExtensions <= b.scalarTypeExtensions
    case InterfaceTypeDefinitionsArena => a.interfaceTypeDefinitions <= b.interfaceTypeDefinitions
    case InterfaceTypeExtensionsArena => a.interfaceTypeExtensions <= b.interfaceTypeExtensions
    case UnionTypeDefinitionsArena => a.unionTypeDefinitions <= b.unionTypeDefinitions
    case UnionTypeExtensionsArena => a.unionTypeExtensions <= b.unionTypeExtensions
    case EnumTypeDefinitionsArena => a.enumTypeDefinitions <= b.enumTypeDefinitions
    case EnumTypeExtensionsArena => a.enumTypeExtensions <= b.enumTypeExtensions
    case EnumValueDefinitionsArena => a.enumValueDefinitions <= b.enumValueDefinitions
    case DirectiveDefinitionsArena => a.directiveDefinitions <= b.directiveDefinitions
    case ValuesArena => a.values <= b.values
    case ListValuesArena => a.listValues <= b.listValues
    case VariableValuesArena => a.variableValues <= b.variableValues
    case StringValuesArena => a.stringValues <= b.stringValues
    case IntValuesArena => a.intValues <= b.intValues
    case FloatValuesArena => a.floatValues <= b.floatValues
    case EnumValuesArena => a.enumValues <= b.enumValues
    case ObjectFieldsArena => a.objectFields <= b.objectFields
    case ObjectValuesArena => a.objectValues <= b.objectValues
    case SelectionsArena => a.selections <= b.selections
    case FieldsArena => a.fields <= b.fields
    case InlineFragmentsArena => a.inlineFragments <= b.inlineFragments
    case FragmentSpreadsArena => a.fragmentSpreads <= b.fragmentSpreads
    case OperationDefinitionsArena => a.operationDefinitions <= b.operationDefinitions
    case VariableDefinitionsArena => a.variableDefinitions <= b.variableDefinitions
    case FragmentDefinitionsArena => a.fragmentDefinitions <= b.fragmentDefinitions
  }

  /**
   * `b` only appended to the arenas of `a`: every existing node keeps its
   * ref and contents. A proof that reads one arena asserts `PrefixAt` for
   * that arena.
   */
  predicate Grown(a: Arenas, b: Arenas) {
    a == b || forall kind :: PrefixAt(a, b, kind)
  }

  lemma GrownReflexive(a: Arenas)
    ensures Grown(a, a)
  {}

  lemma GrownTransitive(a: Arenas, b: Arenas, c: Arenas)
    requires Grown(a, b) && Grown(b, c)
    ensures Grown(a, c)
  {
    forall kind ensures PrefixAt(a, c, kind) {
      assert PrefixAt(a, b, kind) && PrefixAt(b, c, kind);
    }
  }

  /** Appending to Types alone grows the arenas. */
  lemma TypesGrown(a: Arenas, b: Arenas)
    requires b == a.(types := b.types) && a.types <= b.types
    ensures Grown(a, b)
  {}

  /** Every arena is empty in a fresh or reset document. */
  lemma EmptyArenasGrowIntoAll(a: Arenas)
    ensures Grown(EmptyArenas, a)
  {}

  // Appending one node to one arena, as the document's Add methods do; the
  // new node's ref is the arena's old length.

  function PushSchemaDefinition(a: Arenas, node: SchemaDefinition): (r: Arenas)
    ensures Grown(a, r) && r.schemaDefinitions == a.schemaDefinitions + [node]
  {
    a.(schemaDefinitions := a.schemaDefinitions + [node])
  }

  function PushSchemaExtension(a: Arenas, node: SchemaDefinition): (r: Arenas)
    ensures Grown(a, r) && r.schemaExtensions == a.schemaExtensions + [node]
  {
    a.(schemaExtensions := a.schemaExtensions + [node])
  }

  function PushRootOperationTypeDefinition(a: Arenas, node: RootOperationTypeDefinition): (r: Arenas)
    ensures Grown(a, r) && r.rootOperationTypeDefinitions == a.rootOperationTypeDefinitions + [node]
  {
    a.(rootOperationTypeDefinitions := a.rootOperationTypeDefinitions + [node])
  }

  function PushDirective(a: Arenas, node: Directive): (r: Arenas)
    ensures Grown(a, r) && r.directives == a.directives + [node]
  {
    a.(directives := a.directives + [node])
  }

  function PushArgument(a: Arenas, node: Argument): (r: Arenas)
    ensures Grown(a, r) && r.arguments == a.arguments + [node]
  {
    a.(arguments := a.arguments + [node])
  }

  function PushObjectTypeDefinition(a: Arenas, node: ObjectTypeDefinition): (r: Arenas)
    ensures Grown(a, r) && r.objectTypeDefinitions == a.objectTypeDefinitions + [node]
  {
    a.(objectTypeDefinitions := a.objectTypeDefinitions + [node])
  }

  function PushObjectTypeExtension(a: Arenas, node: ObjectTypeDefinition): (r: Arenas)
    ensures Grown(a, r) && r.objectTypeExtensions == a.objectTypeExtensions + [node]
  {
    a.(objectTypeExtensions := a.objectTypeExtensions + [node])
  }

  function PushFieldDefinition(a: Arenas, node: FieldDefinition): (r: Arenas)
    ensures Grown(a, r) && r.fieldDefinitions == a.fieldDefinitions + [node]
  {
    a.(fieldDefinitions := a.fieldDefinitions + [node])
  }

  function PushType(a: Arenas, node: Type): (r: Arenas)
    ensures Grown(a, r) && r.types == a.types + [node]
  {
    a.(types := a.types + [node])
  }

  function PushInputValueDefinition(a: Arenas, node: InputValueDefinition): (r: Arenas)
    ensures Grown(a, r) && r.inputValueDefinitions == a.inputValueDefinitions + [node]
  {
    a.(inputValueDefinitions := a.inputValueDefinitions + [node])
  }

  function PushInputObjectTypeDefinition(a: Arenas, node: InputObjectTypeDefinition): (r: Arenas)
    ensures Grown(a, r) && r.inputObjectTypeDefinitions == a.inputObjectTypeDefinitions + [node]
  {
    a.(inputObjectTypeDefinitions := a.inputObjectTypeDefinitions + [node])
  }

  function PushInputObjectTypeExtension(a: Arenas, node: InputObjectTypeDefinition): (r: Arenas)
    ensures Grown(a, r) && r.inputObjectTypeExtensions == a.inputObjectTypeExtensions + [node]
  {
    a.(inputObjectTypeExtensions := a.inputObjectTypeExtensions + [node])
  }

  function PushScalarTypeDefinition(a: Arenas, node: ScalarTypeDefinition): (r: Arenas)
    ensures Grown(a, r) && r.scalarTypeDefinitions == a.scalarTypeDefinitions + [node]
  {
    a.(scalarTypeDefinitions := a.scalarTypeDefinitions + [node])
  }

  function PushScalarTypeExtension(a: Arenas, node: ScalarTypeDefinition): (r: Arenas)
    ensures Grown(a, r) && r.scalarTypeExtensions == a.scalarTypeExtensions + [node]
  {
    a.(scalarTypeExtensions := a.scalarTypeExtensions + [node])
  }

  function PushInterfaceTypeDefinition(a: Arenas, node: InterfaceTypeDefinition): (r: Arenas)
    ensures Grown(a, r) && r.interfaceTypeDefinitions == a.interfaceTypeDefinitions + [node]
  {
    a.(interfaceTypeDefinitions := a.interfaceTypeDefinitions + [node])
  }

  function PushInterfaceTypeExtension(a: Arenas, node: InterfaceTypeDefinition): (r: Arenas)
    ensures Grown(a, r) && r.interfaceTypeExtensions == a.interfaceTypeExtensions + [node]
  {
    a.(interfaceTypeExtensions := a.interfaceTypeExtensions + [node])
  }

  function PushUnionTypeDefinition(a: Arenas, node: UnionTypeDefinition): (r: Arenas)
    ensures Grown(a, r) && r.unionTypeDefinitions == a.unionTypeDefinitions + [node]
  {
    a.(unionTypeDefinitions := a.unionTypeDefinitions + [node])
  }

  function PushUnionTypeExtension(a: Arenas, node: UnionTypeDefinition): (r: Arenas)
    ensures Grown(a, r) && r.unionTypeExtensions == a.unionTypeExtensions + [node]
  {
    a.(unionTypeExtensions := a.unionTypeExtensions + [node])
  }

  function PushEnumTypeDefinition(a: Arenas, node: EnumTypeDefinition): (r: Arenas)
    ensures Grown(a, r) && r.enumTypeDefinitions == a.enumTypeDefinitions + [node]
  {
    a.(enumTypeDefinitions := a.enumTypeDefinitions + [node])
  }

  function PushEnumTypeExtension(a: Arenas, node: EnumTypeDefinition): (r: Arenas)
    ensures Grown(a, r) && r.enumTypeExtensions == a.enumTypeExtensions + [node]
  {
    a.(enumTypeExtensions := a.enumTypeExtensions + [node])
  }

  function PushEnumValueDefinition(a: Arenas, node: EnumValueDefinition): (r: Arenas)
    ensures Grown(a, r) && r.enumValueDefinitions == a.enumValueDefinitions + [node]
  {
    a.(enumValueDefinitions := a.enumValueDefinitions + [node])
  }

  function PushDirectiveDefinition(a: Arenas, node: DirectiveDefinition): (r: Arenas)
    ensures Grown(a, r) && r.directiveDefinitions == a.directiveDefinitions + [node]
  {
    a.(directiveDefinitions := a.directiveDefinitions + [node])
  }

  function PushValue(a: Arenas, node: Value): (r: Arenas)
    ensures Grown(a, r) && r.values == a.values + [node]
  {
    a.(values := a.values + [node])
  }

  function PushListValue(a: Arenas, node: ListValue): (r: Arenas)
    ensures Grown(a, r) && r.listValues == a.listValues + [node]
  {
    a.(listValues := a.listValues + [node])
  }

  function PushVariableValue(a: Arenas, node: VariableValue): (r: Arenas)
    ensures Grown(a, r) && r.variableValues == a.variableValues + [node]
  {
    a.(variableValues := a.variableValues + [node])
  }

  function PushStringValue(a: Arenas, node: StringValue): (r: Arenas)
    ensures Grown(a, r) && r.stringValues == a.stringValues + [node]
  {
    a.(stringValues := a.stringValues + [node])
  }

  function PushIntValue(a: Arenas, node: IntValue): (r: Arenas)
    ensures Grown(a, r) && r.intValues == a.intValues + [node]
  {
    a.(intValues := a.intValues + [node])
  }

  function PushFloatValue(a: Arenas, node: FloatValue): (r: Arenas)
    ensures Grown(a, r) && r.floatValues == a.floatValues + [node]
  {
    a.(floatValues := a.floatValues + [node])
  }

  function PushEnumValue(a: Arenas, node: EnumValue): (r: Arenas)
    ensures Grown(a, r) && r.enumValues == a.enumValues + [node]
  {
    a.(enumValues := a.enumValues + [node])
  }

  function PushObjectField(a: Arenas, node: ObjectField): (r: Arenas)
    ensures Grown(a, r) && r.objectFields == a.objectFields + [node]
  {
    a.(objectFields := a.objectFields + [node])
  }

  function PushObjectValue(a: Arenas, node: ObjectValue): (r: Arenas)
    ensures Grown(a, r) && r.objectValues == a.objectValues + [node]
  {
    a.(objectValues := a.objectValues + [node])
  }

  function PushSelection(a: Arenas, node: Selection): (r: Arenas)
    ensures Grown(a, r) && r.selections == a.selections + [node]
  {
    a.(selections := a.selections + [node])
  }

  function PushField(a: Arenas, node: Field): (r: Arenas)
    ensures Grown(a, r) && r.fields == a.fields + [node]
  {
    a.(fields := a.fields + [node])
  }

  function PushInlineFragment(a: Arenas, node: InlineFragment): (r: Arenas)
    ensures Grown(a, r) && r.inlineFragments == a.inlineFragments + [node]
  {
    a.(inlineFragments := a.inlineFragments + [node])
  }

  function PushFragmentSpread(a: Arenas, node: FragmentSpread): (r: Arenas)
    ensures Grown(a, r) && r.fragmentSpreads == a.fragmentSpreads + [node]
  {
    a.(fragmentSpreads := a.fragmentSpreads + [node])
  }

  function PushOperationDefinition(a: Arenas, node: OperationDefinition): (r: Arenas)
    ensures Grown(a, r) && r.operationDefinitions == a.operationDefinitions + [node]
  {
    a.(operationDefinitions := a.operationDefinitions + [node])
  }

  function PushVariableDefinition(a: Arenas, node: VariableDefinition): (r: Arenas)
    ensures Grown(a, r) && r.variableDefinitions == a.variableDefinitions + [node]
  {
    a.(variableDefinitions := a.variableDefinitions + [node])
  }

  function PushFragmentDefinition(a: Arenas, node: FragmentDefinition): (r: Arenas)
    ensures Grown(a, r) && r.fragmentDefinitions == a.fragmentDefinitions + [node]
  {
    a.(fragmentDefinitions := a.fragmentDefinitions + [node])
  }

  /**
   * The Document: one growable arena per node kind. The arenas are held
   * together in one record so that appending to one of them is a single
   * update of the document's state.
   */
  class Document {
    /** The top-level definitions in source order. */
    var rootNodes: seq<RootNode>
    var arenas: Arenas

    /** A new, empty document. */
    constructor()
      ensures rootNodes == [] && arenas == EmptyArenas
    {
      rootNodes := [];
      arenas := EmptyArenas;
    }

    /** Empties the root nodes and every arena so that the document can be reused for another parse. */
    method Reset()
      modifies this
      ensures rootNodes == [] && arenas == EmptyArenas
    {
      rootNodes := [];
      arenas := EmptyArenas;
    }
  }
}

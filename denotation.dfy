/**
 * What the arenas of a Document mean: each predicate says that the nodes
 * reachable from a ref (or a list of refs) spell out a given syntax tree.
 * Parsing a production is proved to leave nodes that denote the tree the
 * grammar assigns to it; because arenas only grow, what was denoted once
 * stays denoted.
 */
module Denotation {
  import opened Wrappers
  import opened DirectiveLocations
  import opened Syntax
  import opened Ast

  // ---------------------------------------------------------------- types

  predicate DenotesType(a: Arenas, ref: Ref, t: TypeTree)
    decreases t
  {
    && ref < |a.types|
    && match t
       case NamedT(name) => a.types[ref] == NamedType(name)
       case ListT(inner) => a.types[ref].ListType? && DenotesType(a, a.types[ref].ofType, inner)
       case NonNullT(inner) => a.types[ref].NonNullType? && DenotesType(a, a.types[ref].ofType, inner)
  }

  /**
   * The Types nodes the parser appends for `t` when the arena holds `base`
   * nodes: the wrapped type first, each wrapper right after what it wraps.
   */
  function TypeLayout(t: TypeTree, base: nat): (nodes: seq<Type>)
    ensures |nodes| >= 1
  {
    match t
    case NamedT(name) => [NamedType(name)]
    case ListT(inner) =>
      var nodes := TypeLayout(inner, base);
      nodes + [ListType(base + |nodes| - 1)]
    case NonNullT(inner) =>
      var nodes := TypeLayout(inner, base);
      nodes + [NonNullType(base + |nodes| - 1)]
  }

  /** A list wrapper is laid out right after what it wraps, pointing at its last node. */
  lemma ListLayoutAppend(prefix: seq<Type>, inner: TypeTree)
    ensures prefix + TypeLayout(ListT(inner), |prefix|)
         == (prefix + TypeLayout(inner, |prefix|)) + [ListType(|prefix + TypeLayout(inner, |prefix|)| - 1)]
  {
    var nodes := TypeLayout(inner, |prefix|);
    assert prefix + (nodes + [ListType(|prefix| + |nodes| - 1)]) == (prefix + nodes) + [ListType(|prefix| + |nodes| - 1)];
  }

  /** A non-null wrapper is laid out right after what it wraps, pointing at its last node. */
  lemma NonNullLayoutAppend(prefix: seq<Type>, inner: TypeTree)
    ensures prefix + TypeLayout(NonNullT(inner), |prefix|)
         == (prefix + TypeLayout(inner, |prefix|)) + [NonNullType(|prefix + TypeLayout(inner, |prefix|)| - 1)]
  {
    var nodes := TypeLayout(inner, |prefix|);
    assert prefix + (nodes + [NonNullType(|prefix| + |nodes| - 1)]) == (prefix + nodes) + [NonNullType(|prefix| + |nodes| - 1)];
  }

  /** The arena holds `nodes` from index `base` on. */
  predicate HoldsAt(a: Arenas, base: nat, nodes: seq<Type>) {
    && base + |nodes| <= |a.types|
    && forall k | 0 <= k < |nodes| :: a.types[base + k] == nodes[k]
  }

  lemma HoldsAfter(a: Arenas, prefix: seq<Type>, nodes: seq<Type>)
    requires a.types == prefix + nodes
    ensures HoldsAt(a, |prefix|, nodes)
  {}

  /** The last node of a type's layout denotes the whole type. */
  lemma {:induction false} TypeLayoutDenotes(a: Arenas, t: TypeTree, base: nat)
    requires HoldsAt(a, base, TypeLayout(t, base))
    ensures DenotesType(a, base + |TypeLayout(t, base)| - 1, t)
  {
    var nodes := TypeLayout(t, base);
    assert a.types[base + |nodes| - 1] == nodes[|nodes| - 1];
    match t
    case NamedT(_) =>
    case ListT(inner) =>
      var innerNodes := TypeLayout(inner, base);
      assert nodes == innerNodes + [nodes[|nodes| - 1]];
      assert HoldsAt(a, base, innerNodes) by {
        forall k | 0 <= k < |innerNodes| ensures a.types[base + k] == innerNodes[k] {
          assert nodes[k] == innerNodes[k];
        }
      }
      TypeLayoutDenotes(a, inner, base);
    case NonNullT(inner) =>
      var innerNodes := TypeLayout(inner, base);
      assert nodes == innerNodes + [nodes[|nodes| - 1]];
      assert HoldsAt(a, base, innerNodes) by {
        forall k | 0 <= k < |innerNodes| ensures a.types[base + k] == innerNodes[k] {
          assert nodes[k] == innerNodes[k];
        }
      }
      TypeLayoutDenotes(a, inner, base);
  }

  /** When the Types arena ends with a type's layout, its last node denotes the type. */
  lemma TypeParsedDenotes(a: Arenas, prefix: seq<Type>, t: TypeTree)
    requires a.types == prefix + TypeLayout(t, |prefix|)
    ensures DenotesType(a, |a.types| - 1, t)
  {
    HoldsAfter(a, prefix, TypeLayout(t, |prefix|));
    TypeLayoutDenotes(a, t, |prefix|);
  }

  /** A ref denotes at most one type: the arena can be read back unambiguously. */
  lemma {:induction false} TypeDeterministic(a: Arenas, ref: Ref, t1: TypeTree, t2: TypeTree)
    requires DenotesType(a, ref, t1) && DenotesType(a, ref, t2)
    ensures t1 == t2
    decreases t1
  {
    match t1
    case NamedT(_) =>
    case ListT(inner) => TypeDeterministic(a, a.types[ref].ofType, inner, t2.ofType);
    case NonNullT(inner) => TypeDeterministic(a, a.types[ref].ofType, inner, t2.ofType);
  }

  lemma {:induction false} TypeStable(a: Arenas, b: Arenas, ref: Ref, t: TypeTree)
    requires Grown(a, b) && DenotesType(a, ref, t)
    ensures DenotesType(b, ref, t)
    decreases t
  {
    assert PrefixAt(a, b, TypesArena);
    assert b.types[ref] == a.types[ref];
    match t
    case NamedT(_) =>
    case ListT(inner) => TypeStable(a, b, a.types[ref].ofType, inner);
    case NonNullT(inner) => TypeStable(a, b, a.types[ref].ofType, inner);
  }

  // --------------------------------------------------------------- values

  predicate DenotesValue(a: Arenas, v: Value, t: ValueTree)
    decreases t, 1
  {
    match t
    case VariableV(name) =>
      v.kind == ValueKindVariable && v.ref < |a.variableValues| && a.variableValues[v.ref] == VariableValue(name)
    case IntV(negative, raw) =>
      v.kind == ValueKindInteger && v.ref < |a.intValues| && a.intValues[v.ref] == IntValue(negative, raw)
    case FloatV(negative, raw) =>
      v.kind == ValueKindFloat && v.ref < |a.floatValues| && a.floatValues[v.ref] == FloatValue(negative, raw)
    case StringV(block, content) =>
      v.kind == ValueKindString && v.ref < |a.stringValues| && a.stringValues[v.ref] == StringValue(block, content)
    case BooleanV(b) => v == Value(ValueKindBoolean, if b then 1 else 0)
    case NullV => v == Value(ValueKindNull, 0)
    case EnumV(name) =>
      v.kind == ValueKindEnum && v.ref < |a.enumValues| && a.enumValues[v.ref] == EnumValue(name)
    case ListV(items) =>
      v.kind == ValueKindList && v.ref < |a.listValues| && DenotesValueRefs(a, a.listValues[v.ref].refs, items)
    case ObjectV(fields) =>
      v.kind == ValueKindObject && v.ref < |a.objectValues| && DenotesObjectFieldRefs(a, a.objectValues[v.ref].refs, fields)
  }

  /** Refs into Values, one per list item, in order. */
  predicate DenotesValueRefs(a: Arenas, refs: seq<Ref>, items: seq<ValueTree>)
    decreases items, 0
  {
    && |refs| == |items|
    && forall k | 0 <= k < |refs| :: refs[k] < |a.values| && DenotesValue(a, a.values[refs[k]], items[k])
  }

  /** Refs into ObjectFields, one per object field, in order. */
  predicate DenotesObjectFieldRefs(a: Arenas, refs: seq<Ref>, fields: seq<ObjectFieldTree>)
    decreases fields, 0
  {
    && |refs| == |fields|
    && forall k | 0 <= k < |refs| ::
         && refs[k] < |a.objectFields|
         && a.objectFields[refs[k]].name == fields[k].name
         && DenotesValue(a, a.objectFields[refs[k]].value, fields[k].value)
  }

  lemma {:induction false} ValueStable(a: Arenas, b: Arenas, v: Value, t: ValueTree)
    requires Grown(a, b) && DenotesValue(a, v, t)
    ensures DenotesValue(b, v, t)
    decreases t, 1
  {
    if t.ListV? {
      ListValueStable(a, b, v, t);
    } else if t.ObjectV? {
      ObjectValueStable(a, b, v, t);
    } else {
      GrownNumberArenas(a, b);
      GrownNameArenas(a, b);
      ScalarValueStable(a, b, v, t);
    }
  }

  lemma {:induction false} ListValueStable(a: Arenas, b: Arenas, v: Value, t: ValueTree)
    requires t.ListV? && Grown(a, b) && DenotesValue(a, v, t)
    ensures DenotesValue(b, v, t)
    decreases t, 0
  {
    assert PrefixAt(a, b, ListValuesArena);
    assert b.listValues[v.ref] == a.listValues[v.ref];
    ValueRefsStable(a, b, a.listValues[v.ref].refs, t.items);
  }

  lemma {:induction false} ObjectValueStable(a: Arenas, b: Arenas, v: Value, t: ValueTree)
    requires t.ObjectV? && Grown(a, b) && DenotesValue(a, v, t)
    ensures DenotesValue(b, v, t)
    decreases t, 0
  {
    assert PrefixAt(a, b, ObjectValuesArena);
    assert b.objectValues[v.ref] == a.objectValues[v.ref];
    ObjectFieldRefsStable(a, b, a.objectValues[v.ref].refs, t.fields);
  }

  /** The prefix facts of `Grown` for the arenas that hold numbers. */
  lemma GrownNumberArenas(a: Arenas, b: Arenas)
    requires Grown(a, b)
    ensures a.intValues <= b.intValues && a.floatValues <= b.floatValues
  {
    assert PrefixAt(a, b, IntValuesArena);
    assert PrefixAt(a, b, FloatValuesArena);
  }

  /** The prefix facts of `Grown` for the arenas that hold variable, string and enum values. */
  lemma GrownNameArenas(a: Arenas, b: Arenas)
    requires Grown(a, b)
    ensures a.variableValues <= b.variableValues && a.stringValues <= b.stringValues && a.enumValues <= b.enumValues
  {
    assert PrefixAt(a, b, VariableValuesArena);
    assert PrefixAt(a, b, StringValuesArena);
    assert PrefixAt(a, b, EnumValuesArena);
  }

  /** Values stored in a single arena node: variables, numbers, strings and enum values; booleans and null store none. */
  lemma ScalarValueStable(a: Arenas, b: Arenas, v: Value, t: ValueTree)
    requires !t.ListV? && !t.ObjectV? && DenotesValue(a, v, t)
    requires a.variableValues <= b.variableValues && a.intValues <= b.intValues && a.floatValues <= b.floatValues
    requires a.stringValues <= b.stringValues && a.enumValues <= b.enumValues
    ensures DenotesValue(b, v, t)
  {
  }

  lemma {:induction false} ValueRefsStable(a: Arenas, b: Arenas, refs: seq<Ref>, items: seq<ValueTree>)
    requires Grown(a, b) && DenotesValueRefs(a, refs, items)
    ensures DenotesValueRefs(b, refs, items)
    decreases items, 0
  {
    forall k | 0 <= k < |refs|
      ensures refs[k] < |b.values| && DenotesValue(b, b.values[refs[k]], items[k])
    {
      assert PrefixAt(a, b, ValuesArena);
      assert b.values[refs[k]] == a.values[refs[k]];
      ValueStable(a, b, a.values[refs[k]], items[k]);
    }
  }

  lemma {:induction false} ObjectFieldRefsStable(a: Arenas, b: Arenas, refs: seq<Ref>, fields: seq<ObjectFieldTree>)
    requires Grown(a, b) && DenotesObjectFieldRefs(a, refs, fields)
    ensures DenotesObjectFieldRefs(b, refs, fields)
    decreases fields, 0
  {
    forall k | 0 <= k < |refs|
      ensures && refs[k] < |b.objectFields|
              && b.objectFields[refs[k]].name == fields[k].name
              && DenotesValue(b, b.objectFields[refs[k]].value, fields[k].value)
    {
      assert PrefixAt(a, b, ObjectFieldsArena);
      assert b.objectFields[refs[k]] == a.objectFields[refs[k]];
      ValueStable(a, b, a.objectFields[refs[k]].value, fields[k].value);
    }
  }

  /** A value denotes at most one tree. */
  lemma {:induction false} ValueDeterministic(a: Arenas, v: Value, t1: ValueTree, t2: ValueTree)
    requires DenotesValue(a, v, t1) && DenotesValue(a, v, t2)
    ensures t1 == t2
    decreases t1, 1
  {
    match t1
    case ListV(items) =>
      ValueRefsDeterministic(a, a.listValues[v.ref].refs, items, t2.items);
    case ObjectV(fields) =>
      ObjectFieldRefsDeterministic(a, a.objectValues[v.ref].refs, fields, t2.fields);
    case BooleanV(b) =>
      assert t2.BooleanV?;
    case _ =>
  }

  lemma {:induction false} ValueRefsDeterministic(a: Arenas, refs: seq<Ref>, items1: seq<ValueTree>, items2: seq<ValueTree>)
    requires DenotesValueRefs(a, refs, items1) && DenotesValueRefs(a, refs, items2)
    ensures items1 == items2
    decreases items1, 0
  {
    forall k | 0 <= k < |refs|
      ensures items1[k] == items2[k]
    {
      ValueDeterministic(a, a.values[refs[k]], items1[k], items2[k]);
    }
  }

  lemma {:induction false} ObjectFieldRefsDeterministic(a: Arenas, refs: seq<Ref>, fields1: seq<ObjectFieldTree>, fields2: seq<ObjectFieldTree>)
    requires DenotesObjectFieldRefs(a, refs, fields1) && DenotesObjectFieldRefs(a, refs, fields2)
    ensures fields1 == fields2
    decreases fields1, 0
  {
    forall k | 0 <= k < |refs|
      ensures fields1[k] == fields2[k]
    {
      ValueDeterministic(a, a.objectFields[refs[k]].value, fields1[k].value, fields2[k].value);
    }
  }

  lemma ValueRefsAppend(a: Arenas, refs: seq<Ref>, items: seq<ValueTree>, ref: Ref, item: ValueTree)
    requires DenotesValueRefs(a, refs, items)
    requires ref < |a.values| && DenotesValue(a, a.values[ref], item)
    ensures DenotesValueRefs(a, refs + [ref], items + [item])
  {}

  lemma ObjectFieldRefsAppend(a: Arenas, refs: seq<Ref>, fields: seq<ObjectFieldTree>, ref: Ref, field: ObjectFieldTree)
    requires DenotesObjectFieldRefs(a, refs, fields)
    requires ref < |a.objectFields| && a.objectFields[ref].name == field.name && DenotesValue(a, a.objectFields[ref].value, field.value)
    ensures DenotesObjectFieldRefs(a, refs + [ref], fields + [field])
  {}

  // ------------------------------------------------- arguments, directives

  predicate DenotesArgument(a: Arenas, node: Argument, t: ArgumentTree) {
    node.name == t.name && DenotesValue(a, node.value, t.value)
  }

  /** Refs into Arguments, one per argument, in order. */
  predicate DenotesArgumentRefs(a: Arenas, refs: seq<Ref>, args: seq<ArgumentTree>) {
    && |refs| == |args|
    && forall k | 0 <= k < |refs| :: refs[k] < |a.arguments| && DenotesArgument(a, a.arguments[refs[k]], args[k])
  }

  predicate DenotesDirective(a: Arenas, node: Directive, t: DirectiveTree) {
    node.name == t.name && DenotesArgumentRefs(a, node.arguments, t.arguments)
  }

  /** Refs into Directives, one per directive, in order. */
  predicate DenotesDirectiveRefs(a: Arenas, refs: seq<Ref>, ds: seq<DirectiveTree>) {
    && |refs| == |ds|
    && forall k | 0 <= k < |refs| :: refs[k] < |a.directives| && DenotesDirective(a, a.directives[refs[k]], ds[k])
  }

  lemma ArgumentRefsStable(a: Arenas, b: Arenas, refs: seq<Ref>, args: seq<ArgumentTree>)
    requires Grown(a, b) && DenotesArgumentRefs(a, refs, args)
    ensures DenotesArgumentRefs(b, refs, args)
  {
    forall k | 0 <= k < |refs|
      ensures refs[k] < |b.arguments| && DenotesArgument(b, b.arguments[refs[k]], args[k])
    {
      assert PrefixAt(a, b, ArgumentsArena);
      assert b.arguments[refs[k]] == a.arguments[refs[k]];
      ValueStable(a, b, a.arguments[refs[k]].value, args[k].value);
    }
  }

  lemma DirectiveRefsStable(a: Arenas, b: Arenas, refs: seq<Ref>, ds: seq<DirectiveTree>)
    requires Grown(a, b) && DenotesDirectiveRefs(a, refs, ds)
    ensures DenotesDirectiveRefs(b, refs, ds)
  {
    forall k | 0 <= k < |refs|
      ensures refs[k] < |b.directives| && DenotesDirective(b, b.directives[refs[k]], ds[k])
    {
      assert PrefixAt(a, b, DirectivesArena);
      assert b.directives[refs[k]] == a.directives[refs[k]];
      ArgumentRefsStable(a, b, a.directives[refs[k]].arguments, ds[k].arguments);
    }
  }

  lemma ArgumentRefsAppend(a: Arenas, refs: seq<Ref>, args: seq<ArgumentTree>, ref: Ref, arg: ArgumentTree)
    requires DenotesArgumentRefs(a, refs, args)
    requires ref < |a.arguments| && DenotesArgument(a, a.arguments[ref], arg)
    ensures DenotesArgumentRefs(a, refs + [ref], args + [arg])
  {}

  lemma DirectiveRefsAppend(a: Arenas, refs: seq<Ref>, ds: seq<DirectiveTree>, ref: Ref, d: DirectiveTree)
    requires DenotesDirectiveRefs(a, refs, ds)
    requires ref < |a.directives| && DenotesDirective(a, a.directives[ref], d)
    ensures DenotesDirectiveRefs(a, refs + [ref], ds + [d])
  {}

  // ------------------------------------------------- definitions' members

  /** The Description record a description token (or its absence) leaves. */
  function DescriptionOf(d: DescriptionTree): (r: Description)
    ensures r.isDefined <==> d.Described?
    ensures d.Described? ==> r.isBlockString == d.blockString && r.content == d.content
    ensures d.NoDescription? ==> r == Description(false, false, "")
  {
    match d
    case NoDescription => Description(false, false, "")
    case Described(block, content) => Description(true, block, content)
  }

  predicate DenotesDefaultValue(a: Arenas, node: Option<Value>, t: Option<ValueTree>) {
    node.Some? == t.Some? && (t.Some? ==> DenotesValue(a, node.value, t.value))
  }

  lemma DefaultValueStable(a: Arenas, b: Arenas, node: Option<Value>, t: Option<ValueTree>)
    requires Grown(a, b) && DenotesDefaultValue(a, node, t)
    ensures DenotesDefaultValue(b, node, t)
  {
    if t.Some? {
      ValueStable(a, b, node.value, t.value);
    }
  }

  predicate DenotesInputValue(a: Arenas, node: InputValueDefinition, t: InputValueTree) {
    && node.description == DescriptionOf(t.description)
    && node.name == t.name
    && DenotesType(a, node.typeRef, t.valueType)
    && DenotesDefaultValue(a, node.defaultValue, t.defaultValue)
    && DenotesDirectiveRefs(a, node.directives, t.directives)
  }

  /** Refs into InputValueDefinitions, one per argument or input field, in order. */
  predicate DenotesInputValueRefs(a: Arenas, refs: seq<Ref>, ts: seq<InputValueTree>) {
    && |refs| == |ts|
    && forall k | 0 <= k < |refs| :: refs[k] < |a.inputValueDefinitions| && DenotesInputValue(a, a.inputValueDefinitions[refs[k]], ts[k])
  }

  lemma InputValueStable(a: Arenas, b: Arenas, node: InputValueDefinition, t: InputValueTree)
    requires Grown(a, b) && DenotesInputValue(a, node, t)
    ensures DenotesInputValue(b, node, t)
  {
    TypeStable(a, b, node.typeRef, t.valueType);
    DefaultValueStable(a, b, node.defaultValue, t.defaultValue);
    DirectiveRefsStable(a, b, node.directives, t.directives);
  }

  lemma InputValueRefsStable(a: Arenas, b: Arenas, refs: seq<Ref>, ts: seq<InputValueTree>)
    requires Grown(a, b) && DenotesInputValueRefs(a, refs, ts)
    ensures DenotesInputValueRefs(b, refs, ts)
  {
    forall k | 0 <= k < |refs|
      ensures refs[k] < |b.inputValueDefinitions| && DenotesInputValue(b, b.inputValueDefinitions[refs[k]], ts[k])
    {
      assert PrefixAt(a, b, InputValueDefinitionsArena);
      assert b.inputValueDefinitions[refs[k]] == a.inputValueDefinitions[refs[k]];
      InputValueStable(a, b, a.inputValueDefinitions[refs[k]], ts[k]);
    }
  }

  lemma InputValueRefsAppend(a: Arenas, refs: seq<Ref>, ts: seq<InputValueTree>, ref: Ref, t: InputValueTree)
    requires DenotesInputValueRefs(a, refs, ts)
    requires ref < |a.inputValueDefinitions| && DenotesInputValue(a, a.inputValueDefinitions[ref], t)
    ensures DenotesInputValueRefs(a, refs + [ref], ts + [t])
  {}

  predicate DenotesFieldDefinition(a: Arenas, node: FieldDefinition, t: FieldDefinitionTree) {
    && node.description == DescriptionOf(t.description)
    && node.name == t.name
    && DenotesInputValueRefs(a, node.argumentsDefinition, t.arguments)
    && DenotesType(a, node.typeRef, t.fieldType)
    && DenotesDirectiveRefs(a, node.directives, t.directives)
  }

  /** Refs into FieldDefinitions, in order. */
  predicate DenotesFieldDefinitionRefs(a: Arenas, refs: seq<Ref>, ts: seq<FieldDefinitionTree>) {
    && |refs| == |ts|
    && forall k | 0 <= k < |refs| :: refs[k] < |a.fieldDefinitions| && DenotesFieldDefinition(a, a.fieldDefinitions[refs[k]], ts[k])
  }

  lemma FieldDefinitionStable(a: Arenas, b: Arenas, node: FieldDefinition, t: FieldDefinitionTree)
    requires Grown(a, b) && DenotesFieldDefinition(a, node, t)
    ensures DenotesFieldDefinition(b, node, t)
  {
    InputValueRefsStable(a, b, node.argumentsDefinition, t.arguments);
    TypeStable(a, b, node.typeRef, t.fieldType);
    DirectiveRefsStable(a, b, node.directives, t.directives);
  }

  lemma FieldDefinitionRefsStable(a: Arenas, b: Arenas, refs: seq<Ref>, ts: seq<FieldDefinitionTree>)
    requires Grown(a, b) && DenotesFieldDefinitionRefs(a, refs, ts)
    ensures DenotesFieldDefinitionRefs(b, refs, ts)
  {
    forall k | 0 <= k < |refs|
      ensures refs[k] < |b.fieldDefinitions| && DenotesFieldDefinition(b, b.fieldDefinitions[refs[k]], ts[k])
    {
      assert PrefixAt(a, b, FieldDefinitionsArena);
      assert b.fieldDefinitions[refs[k]] == a.fieldDefinitions[refs[k]];
      FieldDefinitionStable(a, b, a.fieldDefinitions[refs[k]], ts[k]);
    }
  }

  lemma FieldDefinitionRefsAppend(a: Arenas, refs: seq<Ref>, ts: seq<FieldDefinitionTree>, ref: Ref, t: FieldDefinitionTree)
    requires DenotesFieldDefinitionRefs(a, refs, ts)
    requires ref < |a.fieldDefinitions| && DenotesFieldDefinition(a, a.fieldDefinitions[ref], t)
    ensures DenotesFieldDefinitionRefs(a, refs + [ref], ts + [t])
  {}

  predicate DenotesEnumValue(a: Arenas, node: EnumValueDefinition, t: EnumValueTree) {
    && node.description == DescriptionOf(t.description)
    && node.enumValue == t.name
    && DenotesDirectiveRefs(a, node.directives, t.directives)
  }

  /** Refs into EnumValueDefinitions, in order. */
  predicate DenotesEnumValueRefs(a: Arenas, refs: seq<Ref>, ts: seq<EnumValueTree>) {
    && |refs| == |ts|
    && forall k | 0 <= k < |refs| :: refs[k] < |a.enumValueDefinitions| && DenotesEnumValue(a, a.enumValueDefinitions[refs[k]], ts[k])
  }

  lemma EnumValueRefsStable(a: Arenas, b: Arenas, refs: seq<Ref>, ts: seq<EnumValueTree>)
    requires Grown(a, b) && DenotesEnumValueRefs(a, refs, ts)
    ensures DenotesEnumValueRefs(b, refs, ts)
  {
    forall k | 0 <= k < |refs|
      ensures refs[k] < |b.enumValueDefinitions| && DenotesEnumValue(b, b.enumValueDefinitions[refs[k]], ts[k])
    {
      assert PrefixAt(a, b, EnumValueDefinitionsArena);
      assert b.enumValueDefinitions[refs[k]] == a.enumValueDefinitions[refs[k]];
      DirectiveRefsStable(a, b, a.enumValueDefinitions[refs[k]].directives, ts[k].directives);
    }
  }

  lemma EnumValueRefsAppend(a: Arenas, refs: seq<Ref>, ts: seq<EnumValueTree>, ref: Ref, t: EnumValueTree)
    requires DenotesEnumValueRefs(a, refs, ts)
    requires ref < |a.enumValueDefinitions| && DenotesEnumValue(a, a.enumValueDefinitions[ref], t)
    ensures DenotesEnumValueRefs(a, refs + [ref], ts + [t])
  {}

  /** Refs into Types, each a named type, one per name, in order (union members, implemented interfaces). */
  predicate DenotesNamedTypeRefs(a: Arenas, refs: seq<Ref>, names: seq<string>) {
    && |refs| == |names|
    && forall k | 0 <= k < |refs| :: refs[k] < |a.types| && a.types[refs[k]] == NamedType(names[k])
  }

  lemma NamedTypeRefsStable(a: Arenas, b: Arenas, refs: seq<Ref>, names: seq<string>)
    requires Grown(a, b) && DenotesNamedTypeRefs(a, refs, names)
    ensures DenotesNamedTypeRefs(b, refs, names)
  {
    forall k | 0 <= k < |refs| ensures refs[k] < |b.types| && b.types[refs[k]] == NamedType(names[k]) {
      assert PrefixAt(a, b, TypesArena);
      assert b.types[refs[k]] == a.types[refs[k]];
    }
  }

  function OperationTypeOf(op: OperationKind): (r: OperationType)
    ensures op.QueryOp? <==> r.OperationTypeQuery?
    ensures op.MutationOp? <==> r.OperationTypeMutation?
  {
    match op
    case QueryOp => OperationTypeQuery
    case MutationOp => OperationTypeMutation
    case SubscriptionOp => OperationTypeSubscription
  }

  /** Refs into RootOperationTypeDefinitions, in order. */
  predicate DenotesRootOperationRefs(a: Arenas, refs: seq<Ref>, ops: seq<RootOperationTree>) {
    && |refs| == |ops|
    && forall k | 0 <= k < |refs| ::
         && refs[k] < |a.rootOperationTypeDefinitions|
         && a.rootOperationTypeDefinitions[refs[k]] == RootOperationTypeDefinition(OperationTypeOf(ops[k].operation), ops[k].namedType)
  }

  lemma RootOperationRefsStable(a: Arenas, b: Arenas, refs: seq<Ref>, ops: seq<RootOperationTree>)
    requires Grown(a, b) && DenotesRootOperationRefs(a, refs, ops)
    ensures DenotesRootOperationRefs(b, refs, ops)
  {
    forall k | 0 <= k < |refs|
      ensures refs[k] < |b.rootOperationTypeDefinitions| && b.rootOperationTypeDefinitions[refs[k]] == a.rootOperationTypeDefinitions[refs[k]]
    {
      assert PrefixAt(a, b, RootOperationTypeDefinitionsArena);
    }
  }

  lemma RootOperationRefsAppend(a: Arenas, refs: seq<Ref>, ops: seq<RootOperationTree>, ref: Ref, op: RootOperationTree)
    requires DenotesRootOperationRefs(a, refs, ops)
    requires ref < |a.rootOperationTypeDefinitions|
    requires a.rootOperationTypeDefinitions[ref] == RootOperationTypeDefinition(OperationTypeOf(op.operation), op.namedType)
    ensures DenotesRootOperationRefs(a, refs + [ref], ops + [op])
  {}

  predicate DenotesVariableDefinition(a: Arenas, node: VariableDefinition, t: VariableDefinitionTree) {
    && node.variable < |a.variableValues|
    && a.variableValues[node.variable] == VariableValue(t.name)
    && DenotesType(a, node.typeRef, t.variableType)
    && DenotesDefaultValue(a, node.defaultValue, t.defaultValue)
    && DenotesDirectiveRefs(a, node.directives, t.directives)
  }

  /** Refs into VariableDefinitions, in order. */
  predicate DenotesVariableDefinitionRefs(a: Arenas, refs: seq<Ref>, ts: seq<VariableDefinitionTree>) {
    && |refs| == |ts|
    && forall k | 0 <= k < |refs| ::
         refs[k] < |a.variableDefinitions| && DenotesVariableDefinition(a, a.variableDefinitions[refs[k]], ts[k])
  }

  lemma VariableDefinitionStable(a: Arenas, b: Arenas, node: VariableDefinition, t: VariableDefinitionTree)
    requires Grown(a, b) && DenotesVariableDefinition(a, node, t)
    ensures DenotesVariableDefinition(b, node, t)
  {
    assert PrefixAt(a, b, VariableValuesArena);
    assert b.variableValues[node.variable] == a.variableValues[node.variable];
    TypeStable(a, b, node.typeRef, t.variableType);
    DefaultValueStable(a, b, node.defaultValue, t.defaultValue);
    DirectiveRefsStable(a, b, node.directives, t.directives);
  }

  lemma VariableDefinitionRefsStable(a: Arenas, b: Arenas, refs: seq<Ref>, ts: seq<VariableDefinitionTree>)
    requires Grown(a, b) && DenotesVariableDefinitionRefs(a, refs, ts)
    ensures DenotesVariableDefinitionRefs(b, refs, ts)
  {
    forall k | 0 <= k < |refs|
      ensures refs[k] < |b.variableDefinitions| && DenotesVariableDefinition(b, b.variableDefinitions[refs[k]], ts[k])
    {
      assert PrefixAt(a, b, VariableDefinitionsArena);
      assert b.variableDefinitions[refs[k]] == a.variableDefinitions[refs[k]];
      VariableDefinitionStable(a, b, a.variableDefinitions[refs[k]], ts[k]);
    }
  }

  lemma VariableDefinitionRefsAppend(a: Arenas, refs: seq<Ref>, ts: seq<VariableDefinitionTree>, ref: Ref, t: VariableDefinitionTree)
    requires DenotesVariableDefinitionRefs(a, refs, ts)
    requires ref < |a.variableDefinitions| && DenotesVariableDefinition(a, a.variableDefinitions[ref], t)
    ensures DenotesVariableDefinitionRefs(a, refs + [ref], ts + [t])
  {}

  // ----------------------------------------------------------- selections

  /** A type condition: a ref into Types holding the named type. */
  predicate DenotesTypeCondition(a: Arenas, ref: Ref, name: string) {
    ref < |a.types| && a.types[ref] == NamedType(name)
  }

  lemma TypeConditionStable(a: Arenas, b: Arenas, ref: Ref, name: string)
    requires Grown(a, b) && DenotesTypeCondition(a, ref, name)
    ensures DenotesTypeCondition(b, ref, name)
  {
    assert PrefixAt(a, b, TypesArena);
  }

  predicate DenotesSelection(a: Arenas, s: Selection, t: SelectionTree)
    decreases t, 1
  {
    match t
    case FieldT(alias, name, args, ds, sub) =>
      && s.kind == SelectionKindField && s.ref < |a.fields|
      && a.fields[s.ref].alias == alias && a.fields[s.ref].name == name
      && DenotesArgumentRefs(a, a.fields[s.ref].arguments, args)
      && DenotesDirectiveRefs(a, a.fields[s.ref].directives, ds)
      && a.fields[s.ref].selectionSet.Some? == sub.Nested?
      && (sub.Nested? ==> DenotesSelectionRefs(a, a.fields[s.ref].selectionSet.value, sub.selections))
    case SpreadT(name, ds) =>
      && s.kind == SelectionKindFragmentSpread && s.ref < |a.fragmentSpreads|
      && a.fragmentSpreads[s.ref].fragmentName == name
      && DenotesDirectiveRefs(a, a.fragmentSpreads[s.ref].directives, ds)
    case InlineT(condition, ds, sub) =>
      && s.kind == SelectionKindInlineFragment && s.ref < |a.inlineFragments|
      && a.inlineFragments[s.ref].typeCondition.Some? == condition.Some?
      && (condition.Some? ==> DenotesTypeCondition(a, a.inlineFragments[s.ref].typeCondition.value, condition.value))
      && DenotesDirectiveRefs(a, a.inlineFragments[s.ref].directives, ds)
      && DenotesSelectionRefs(a, a.inlineFragments[s.ref].selectionSet, sub)
  }

  /** Refs into Selections, one per selection, in order. */
  predicate DenotesSelectionRefs(a: Arenas, refs: seq<Ref>, ts: seq<SelectionTree>)
    decreases ts, 0
  {
    && |refs| == |ts|
    && forall k | 0 <= k < |refs| :: refs[k] < |a.selections| && DenotesSelection(a, a.selections[refs[k]], ts[k])
  }

  lemma {:induction false} SelectionStable(a: Arenas, b: Arenas, s: Selection, t: SelectionTree)
    requires Grown(a, b) && DenotesSelection(a, s, t)
    ensures DenotesSelection(b, s, t)
    decreases t, 1
  {
    if t.FieldT? {
      FieldSelectionStable(a, b, s, t);
    } else if t.SpreadT? {
      SpreadSelectionStable(a, b, s, t);
    } else {
      InlineSelectionStable(a, b, s, t);
    }
  }

  lemma {:induction false} FieldSelectionStable(a: Arenas, b: Arenas, s: Selection, t: SelectionTree)
    requires t.FieldT? && Grown(a, b) && DenotesSelection(a, s, t)
    ensures DenotesSelection(b, s, t)
    decreases t, 0
  {
    var f := a.fields[s.ref];
    assert PrefixAt(a, b, FieldsArena);
    assert b.fields[s.ref] == f;
    ArgumentRefsStable(a, b, f.arguments, t.arguments);
    DirectiveRefsStable(a, b, f.directives, t.directives);
    if t.subSelections.Nested? {
      SelectionRefsStable(a, b, f.selectionSet.value, t.subSelections.selections);
    }
  }

  lemma SpreadSelectionStable(a: Arenas, b: Arenas, s: Selection, t: SelectionTree)
    requires t.SpreadT? && Grown(a, b) && DenotesSelection(a, s, t)
    ensures DenotesSelection(b, s, t)
  {
    assert PrefixAt(a, b, FragmentSpreadsArena);
    assert b.fragmentSpreads[s.ref] == a.fragmentSpreads[s.ref];
    DirectiveRefsStable(a, b, a.fragmentSpreads[s.ref].directives, t.directives);
  }

  lemma {:induction false} InlineSelectionStable(a: Arenas, b: Arenas, s: Selection, t: SelectionTree)
    requires t.InlineT? && Grown(a, b) && DenotesSelection(a, s, t)
    ensures DenotesSelection(b, s, t)
    decreases t, 0
  {
    var f := a.inlineFragments[s.ref];
    assert PrefixAt(a, b, InlineFragmentsArena);
    assert b.inlineFragments[s.ref] == f;
    if t.typeCondition.Some? {
      assert PrefixAt(a, b, TypesArena);
      assert b.types[f.typeCondition.value] == a.types[f.typeCondition.value];
    }
    DirectiveRefsStable(a, b, f.directives, t.directives);
    SelectionRefsStable(a, b, f.selectionSet, t.selections);
  }

  lemma {:induction false} SelectionRefsStable(a: Arenas, b: Arenas, refs: seq<Ref>, ts: seq<SelectionTree>)
    requires Grown(a, b) && DenotesSelectionRefs(a, refs, ts)
    ensures DenotesSelectionRefs(b, refs, ts)
    decreases ts, 0
  {
    forall k | 0 <= k < |refs|
      ensures refs[k] < |b.selections| && DenotesSelection(b, b.selections[refs[k]], ts[k])
    {
      assert PrefixAt(a, b, SelectionsArena);
      assert b.selections[refs[k]] == a.selections[refs[k]];
      SelectionStable(a, b, a.selections[refs[k]], ts[k]);
    }
  }

  lemma SelectionRefsAppend(a: Arenas, refs: seq<Ref>, ts: seq<SelectionTree>, ref: Ref, t: SelectionTree)
    requires DenotesSelectionRefs(a, refs, ts)
    requires ref < |a.selections| && DenotesSelection(a, a.selections[ref], t)
    ensures DenotesSelectionRefs(a, refs + [ref], ts + [t])
  {}

  // ------------------------------------------------- top-level definitions

  predicate DenotesSchema(a: Arenas, node: SchemaDefinition, ds: seq<DirectiveTree>, ops: seq<RootOperationTree>) {
    DenotesDirectiveRefs(a, node.directives, ds) && DenotesRootOperationRefs(a, node.rootOperationTypeDefinitions, ops)
  }

  predicate DenotesObjectType(a: Arenas, node: ObjectTypeDefinition, d: DefinitionTree)
    requires d.ObjectT?
  {
    && node.description == DescriptionOf(d.description) && node.name == d.name
    && DenotesNamedTypeRefs(a, node.implementsInterfaces, d.interfaces)
    && DenotesDirectiveRefs(a, node.directives, d.directives)
    && DenotesFieldDefinitionRefs(a, node.fieldsDefinition, d.fields)
  }

  predicate DenotesInterfaceType(a: Arenas, node: InterfaceTypeDefinition, d: DefinitionTree)
    requires d.InterfaceT?
  {
    && node.description == DescriptionOf(d.description) && node.name == d.name
    && DenotesDirectiveRefs(a, node.directives, d.directives)
    && DenotesFieldDefinitionRefs(a, node.fieldsDefinition, d.fields)
  }

  predicate DenotesUnionType(a: Arenas, node: UnionTypeDefinition, d: DefinitionTree)
    requires d.UnionT?
  {
    && node.description == DescriptionOf(d.description) && node.name == d.name
    && DenotesDirectiveRefs(a, node.directives, d.directives)
    && DenotesNamedTypeRefs(a, node.unionMemberTypes, d.members)
  }

  predicate DenotesEnumType(a: Arenas, node: EnumTypeDefinition, d: DefinitionTree)
    requires d.EnumT?
  {
    && node.description == DescriptionOf(d.description) && node.name == d.name
    && DenotesDirectiveRefs(a, node.directives, d.directives)
    && DenotesEnumValueRefs(a, node.enumValuesDefinition, d.values)
  }

  predicate DenotesInputObjectType(a: Arenas, node: InputObjectTypeDefinition, d: DefinitionTree)
    requires d.InputObjectT?
  {
    && node.description == DescriptionOf(d.description) && node.name == d.name
    && DenotesDirectiveRefs(a, node.directives, d.directives)
    && DenotesInputValueRefs(a, node.inputFieldsDefinition, d.inputFields)
  }

  predicate DenotesScalarType(a: Arenas, node: ScalarTypeDefinition, d: DefinitionTree)
    requires d.ScalarT?
  {
    node.description == DescriptionOf(d.description) && node.name == d.name && DenotesDirectiveRefs(a, node.directives, d.directives)
  }

  predicate DenotesDirectiveDefinition(a: Arenas, node: DirectiveDefinition, d: DefinitionTree)
    requires d.DirectiveDefT?
  {
    && node.description == DescriptionOf(d.description) && node.name == d.name
    && DenotesInputValueRefs(a, node.argumentsDefinition, d.arguments)
    && node.directiveLocations == d.locations
  }

  predicate DenotesOperation(a: Arenas, node: OperationDefinition, d: DefinitionTree)
    requires d.OperationT?
  {
    && node.operationType == OperationTypeOf(d.operation) && node.name == d.name
    && DenotesVariableDefinitionRefs(a, node.variableDefinitions, d.variables)
    && DenotesDirectiveRefs(a, node.directives, d.directives)
    && DenotesSelectionRefs(a, node.selectionSet, d.selections)
  }

  predicate DenotesFragment(a: Arenas, node: FragmentDefinition, d: DefinitionTree)
    requires d.FragmentT?
  {
    && node.name == d.name
    && DenotesTypeCondition(a, node.typeCondition, d.typeCondition)
    && DenotesDirectiveRefs(a, node.directives, d.directives)
    && DenotesSelectionRefs(a, node.selectionSet, d.selections)
  }

  /**
   * A root node stands for a definition: its kind names the definition's
   * arena (the extension arena for an `extend`), and the node it points at
   * denotes the definition.
   */
  predicate DenotesRoot(a: Arenas, rn: RootNode, d: DefinitionTree) {
    match d
    case SchemaT(ext, ds, ops) =>
      var arena := if ext then a.schemaExtensions else a.schemaDefinitions;
      && rn.kind == (if ext then NodeKindSchemaExtension else NodeKindSchemaDefinition)
      && rn.ref < |arena| && DenotesSchema(a, arena[rn.ref], ds, ops)
    case ObjectT(ext, _, _, _, _, _) =>
      var arena := if ext then a.objectTypeExtensions else a.objectTypeDefinitions;
      && rn.kind == (if ext then NodeKindObjectTypeExtension else NodeKindObjectTypeDefinition)
      && rn.ref < |arena| && DenotesObjectType(a, arena[rn.ref], d)
    case InterfaceT(ext, _, _, _, _) =>
      var arena := if ext then a.interfaceTypeExtensions else a.interfaceTypeDefinitions;
      && rn.kind == (if ext then NodeKindInterfaceTypeExtension else NodeKindInterfaceTypeDefinition)
      && rn.ref < |arena| && DenotesInterfaceType(a, arena[rn.ref], d)
    case UnionT(ext, _, _, _, _) =>
      var arena := if ext then a.unionTypeExtensions else a.unionTypeDefinitions;
      && rn.kind == (if ext then NodeKindUnionTypeExtension else NodeKindUnionTypeDefinition)
      && rn.ref < |arena| && DenotesUnionType(a, arena[rn.ref], d)
    case EnumT(ext, _, _, _, _) =>
      var arena := if ext then a.enumTypeExtensions else a.enumTypeDefinitions;
      && rn.kind == (if ext then NodeKindEnumTypeExtension else NodeKindEnumTypeDefinition)
      && rn.ref < |arena| && DenotesEnumType(a, arena[rn.ref], d)
    case InputObjectT(ext, _, _, _, _) =>
      var arena := if ext then a.inputObjectTypeExtensions else a.inputObjectTypeDefinitions;
      && rn.kind == (if ext then NodeKindInputObjectTypeExtension else NodeKindInputObjectTypeDefinition)
      && rn.ref < |arena| && DenotesInputObjectType(a, arena[rn.ref], d)
    case ScalarT(ext, _, _, _) =>
      var arena := if ext then a.scalarTypeExtensions else a.scalarTypeDefinitions;
      && rn.kind == (if ext then NodeKindScalarTypeExtension else NodeKindScalarTypeDefinition)
      && rn.ref < |arena| && DenotesScalarType(a, arena[rn.ref], d)
    case DirectiveDefT(_, _, _, _) =>
      && rn.kind == NodeKindDirectiveDefinition
      && rn.ref < |a.directiveDefinitions| && DenotesDirectiveDefinition(a, a.directiveDefinitions[rn.ref], d)
    case OperationT(_, _, _, _, _) =>
      && rn.kind == NodeKindOperationDefinition
      && rn.ref < |a.operationDefinitions| && DenotesOperation(a, a.operationDefinitions[rn.ref], d)
    case FragmentT(_, _, _, _) =>
      && rn.kind == NodeKindFragmentDefinition
      && rn.ref < |a.fragmentDefinitions| && DenotesFragment(a, a.fragmentDefinitions[rn.ref], d)
  }

  /** Root nodes, one per definition, in document order. */
  predicate DenotesRoots(a: Arenas, roots: seq<RootNode>, ds: seq<DefinitionTree>) {
    |roots| == |ds| && forall k | 0 <= k < |roots| :: DenotesRoot(a, roots[k], ds[k])
  }

  lemma SchemaRootStable(a: Arenas, b: Arenas, rn: RootNode, d: DefinitionTree)
    requires d.SchemaT? && Grown(a, b) && DenotesRoot(a, rn, d)
    ensures DenotesRoot(b, rn, d)
  {
    var node := if d.extension then a.schemaExtensions[rn.ref] else a.schemaDefinitions[rn.ref];
    assert PrefixAt(a, b, SchemaExtensionsArena) && PrefixAt(a, b, SchemaDefinitionsArena);
    DirectiveRefsStable(a, b, node.directives, d.directives);
    RootOperationRefsStable(a, b, node.rootOperationTypeDefinitions, d.operations);
  }

  lemma ObjectTypeRootStable(a: Arenas, b: Arenas, rn: RootNode, d: DefinitionTree)
    requires d.ObjectT? && Grown(a, b) && DenotesRoot(a, rn, d)
    ensures DenotesRoot(b, rn, d)
  {
    var node := if d.extension then a.objectTypeExtensions[rn.ref] else a.objectTypeDefinitions[rn.ref];
    assert PrefixAt(a, b, ObjectTypeExtensionsArena) && PrefixAt(a, b, ObjectTypeDefinitionsArena);
    NamedTypeRefsStable(a, b, node.implementsInterfaces, d.interfaces);
    DirectiveRefsStable(a, b, node.directives, d.directives);
    FieldDefinitionRefsStable(a, b, node.fieldsDefinition, d.fields);
  }

  lemma InterfaceTypeRootStable(a: Arenas, b: Arenas, rn: RootNode, d: DefinitionTree)
    requires d.InterfaceT? && Grown(a, b) && DenotesRoot(a, rn, d)
    ensures DenotesRoot(b, rn, d)
  {
    var node := if d.extension then a.interfaceTypeExtensions[rn.ref] else a.interfaceTypeDefinitions[rn.ref];
    assert PrefixAt(a, b, InterfaceTypeExtensionsArena) && PrefixAt(a, b, InterfaceTypeDefinitionsArena);
    DirectiveRefsStable(a, b, node.directives, d.directives);
    FieldDefinitionRefsStable(a, b, node.fieldsDefinition, d.fields);
  }

  lemma UnionTypeRootStable(a: Arenas, b: Arenas, rn: RootNode, d: DefinitionTree)
    requires d.UnionT? && Grown(a, b) && DenotesRoot(a, rn, d)
    ensures DenotesRoot(b, rn, d)
  {
    var node := if d.extension then a.unionTypeExtensions[rn.ref] else a.unionTypeDefinitions[rn.ref];
    assert PrefixAt(a, b, UnionTypeExtensionsArena) && PrefixAt(a, b, UnionTypeDefinitionsArena);
    DirectiveRefsStable(a, b, node.directives, d.directives);
    NamedTypeRefsStable(a, b, node.unionMemberTypes, d.members);
  }

  lemma EnumTypeRootStable(a: Arenas, b: Arenas, rn: RootNode, d: DefinitionTree)
    requires d.EnumT? && Grown(a, b) && DenotesRoot(a, rn, d)
    ensures DenotesRoot(b, rn, d)
  {
    var node := if d.extension then a.enumTypeExtensions[rn.ref] else a.enumTypeDefinitions[rn.ref];
    assert PrefixAt(a, b, EnumTypeExtensionsArena) && PrefixAt(a, b, EnumTypeDefinitionsArena);
    DirectiveRefsStable(a, b, node.directives, d.directives);
    EnumValueRefsStable(a, b, node.enumValuesDefinition, d.values);
  }

  lemma InputObjectTypeRootStable(a: Arenas, b: Arenas, rn: RootNode, d: DefinitionTree)
    requires d.InputObjectT? && Grown(a, b) && DenotesRoot(a, rn, d)
    ensures DenotesRoot(b, rn, d)
  {
    var node := if d.extension then a.inputObjectTypeExtensions[rn.ref] else a.inputObjectTypeDefinitions[rn.ref];
    assert PrefixAt(a, b, InputObjectTypeExtensionsArena) && PrefixAt(a, b, InputObjectTypeDefinitionsArena);
    DirectiveRefsStable(a, b, node.directives, d.directives);
    InputValueRefsStable(a, b, node.inputFieldsDefinition, d.inputFields);
  }

  lemma ScalarTypeRootStable(a: Arenas, b: Arenas, rn: RootNode, d: DefinitionTree)
    requires d.ScalarT? && Grown(a, b) && DenotesRoot(a, rn, d)
    ensures DenotesRoot(b, rn, d)
  {
    var node := if d.extension then a.scalarTypeExtensions[rn.ref] else a.scalarTypeDefinitions[rn.ref];
    assert PrefixAt(a, b, ScalarTypeExtensionsArena) && PrefixAt(a, b, ScalarTypeDefinitionsArena);
    DirectiveRefsStable(a, b, node.directives, d.directives);
  }

  lemma DirectiveDefinitionRootStable(a: Arenas, b: Arenas, rn: RootNode, d: DefinitionTree)
    requires d.DirectiveDefT? && Grown(a, b) && DenotesRoot(a, rn, d)
    ensures DenotesRoot(b, rn, d)
  {
    var node := a.directiveDefinitions[rn.ref];
    assert PrefixAt(a, b, DirectiveDefinitionsArena);
    InputValueRefsStable(a, b, node.argumentsDefinition, d.arguments);
  }

  lemma OperationRootStable(a: Arenas, b: Arenas, rn: RootNode, d: DefinitionTree)
    requires d.OperationT? && Grown(a, b) && DenotesRoot(a, rn, d)
    ensures DenotesRoot(b, rn, d)
  {
    var node := a.operationDefinitions[rn.ref];
    assert PrefixAt(a, b, OperationDefinitionsArena);
    VariableDefinitionRefsStable(a, b, node.variableDefinitions, d.variables);
    DirectiveRefsStable(a, b, node.directives, d.directives);
    SelectionRefsStable(a, b, node.selectionSet, d.selections);
  }

  lemma FragmentRootStable(a: Arenas, b: Arenas, rn: RootNode, d: DefinitionTree)
    requires d.FragmentT? && Grown(a, b) && DenotesRoot(a, rn, d)
    ensures DenotesRoot(b, rn, d)
  {
    var node := a.fragmentDefinitions[rn.ref];
    assert PrefixAt(a, b, FragmentDefinitionsArena);
    assert PrefixAt(a, b, TypesArena);
    DirectiveRefsStable(a, b, node.directives, d.directives);
    SelectionRefsStable(a, b, node.selectionSet, d.selections);
  }

  lemma RootStable(a: Arenas, b: Arenas, rn: RootNode, d: DefinitionTree)
    requires Grown(a, b) && DenotesRoot(a, rn, d)
    ensures DenotesRoot(b, rn, d)
  {
    if d.SchemaT? || d.DirectiveDefT? || d.OperationT? || d.FragmentT? {
      OtherRootStable(a, b, rn, d);
    } else {
      TypeRootStable(a, b, rn, d);
    }
  }

  /** Roots for type definitions and extensions. */
  lemma TypeRootStable(a: Arenas, b: Arenas, rn: RootNode, d: DefinitionTree)
    requires !(d.SchemaT? || d.DirectiveDefT? || d.OperationT? || d.FragmentT?)
    requires Grown(a, b) && DenotesRoot(a, rn, d)
    ensures DenotesRoot(b, rn, d)
  {
    match d
    case ObjectT(_, _, _, _, _, _) => ObjectTypeRootStable(a, b, rn, d);
    case InterfaceT(_, _, _, _, _) => InterfaceTypeRootStable(a, b, rn, d);
    case UnionT(_, _, _, _, _) => UnionTypeRootStable(a, b, rn, d);
    case EnumT(_, _, _, _, _) => EnumTypeRootStable(a, b, rn, d);
    case InputObjectT(_, _, _, _, _) => InputObjectTypeRootStable(a, b, rn, d);
    case ScalarT(_, _, _, _) => ScalarTypeRootStable(a, b, rn, d);
  }

  /** Roots for schema, directive, operation and fragment definitions. */
  lemma OtherRootStable(a: Arenas, b: Arenas, rn: RootNode, d: DefinitionTree)
    requires d.SchemaT? || d.DirectiveDefT? || d.OperationT? || d.FragmentT?
    requires Grown(a, b) && DenotesRoot(a, rn, d)
    ensures DenotesRoot(b, rn, d)
  {
    match d
    case SchemaT(_, _, _) => SchemaRootStable(a, b, rn, d);
    case DirectiveDefT(_, _, _, _) => DirectiveDefinitionRootStable(a, b, rn, d);
    case OperationT(_, _, _, _, _) => OperationRootStable(a, b, rn, d);
    case FragmentT(_, _, _, _) => FragmentRootStable(a, b, rn, d);
  }

  lemma RootsStable(a: Arenas, b: Arenas, roots: seq<RootNode>, ds: seq<DefinitionTree>)
    requires Grown(a, b) && DenotesRoots(a, roots, ds)
    ensures DenotesRoots(b, roots, ds)
  {
    forall k | 0 <= k < |roots| ensures DenotesRoot(b, roots[k], ds[k]) {
      RootStable(a, b, roots[k], ds[k]);
    }
  }
}

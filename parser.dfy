/**
 * The parser: a cursor over the token stream that appends nodes to the
 * Document's arenas as it recognises productions. Every parse method is
 * proved against the grammar function of its production: it fails exactly
 * when the grammar does, at the same token; otherwise it stops where the
 * grammar stops, has only appended to the arenas, and returns refs whose
 * nodes denote the grammar's tree.
 */
module AstParser {
  import opened Wrappers
  import opened Tokens
  import opened DirectiveLocations
  import opened Syntax
  import opened Grammar
  import opened Ast
  import opened Denotation

  /** The index of the token the parser could not accept. */
  datatype ParseError = ParseError(at: nat)

  class Parser {
    const tokens: seq<Token>
    const document: Document
    /** Index of the next token to read. */
    var current: nat
    var err: Option<ParseError>

    constructor(tokens: seq<Token>, document: Document)
      ensures this.tokens == tokens && this.document == document
      ensures current == 0 && err == None
    {
      this.tokens := tokens;
      this.document := document;
      current := 0;
      err := None;
    }

    /** No error so far, and the cursor lies within the stream. */
    predicate Ready()
      reads this
    {
      current <= |tokens| && err.None?
    }

    /**
     * The parser's state after attempting a production whose grammar
     * outcome is `r`: the error is set exactly when `r` failed, and names
     * the same token; on success the cursor is just past the production.
     */
    ghost predicate Reports<T>(r: Res<T>)
      reads this
    {
      && current <= |tokens|
      && (err.None? <==> r.Ok?)
      && (r.Ok? ==> current == r.next)
      && (r.Err? ==> err == Some(ParseError(r.at)))
    }

    /** The keyword of the next token, `Eof` at the end of the stream. */
    function Peek(): Keyword
      reads this
    {
      KindAt(tokens, current)
    }

    /** Consumes the next token; at the end of the stream it yields `Eof` and stays put. */
    method Read() returns (t: Token)
      requires current <= |tokens|
      modifies this
      ensures t.keyword == KindAt(tokens, old(current)) && t.literal == LiteralAt(tokens, old(current))
      ensures current == if old(current) < |tokens| then old(current) + 1 else old(current)
      ensures err == old(err)
    {
      if current < |tokens| {
        t := tokens[current];
        current := current + 1;
      } else {
        t := Token(Eof, "", true);
      }
    }

    /** Records an unexpected token at the cursor. */
    method Fail()
      modifies this
      ensures err == Some(ParseError(old(current))) && current == old(current)
    {
      err := Some(ParseError(current));
    }

    // ------------------------------------------------------------- types

    /** parseType: appends the type's nodes to Types, wrapped types first, and returns the outermost one. */
    method ParseType() returns (ref: Ref)
      requires Ready()
      modifies this, document`arenas
      ensures Reports(TypeAt(tokens, old(current)))
      ensures document.arenas == old(document.arenas).(types := document.arenas.types)
      ensures old(document.arenas.types) <= document.arenas.types
      ensures TypeAt(tokens, old(current)).Ok? ==>
        && document.arenas.types == old(document.arenas.types) + TypeLayout(TypeAt(tokens, old(current)).value, |old(document.arenas.types)|)
        && ref == |document.arenas.types| - 1
      decreases |tokens| - current, 2
    {
      ref := ParseCoreType();
      if err.None? {
        ref := ParseBang(ref, CoreTypeAt(tokens, old(current)).value, old(document.arenas.types));
      }
    }

    /** The optional `!` after a named or list type laid out as `core` after `prefix`; it appends the non-null node. */
    method ParseBang(ref: Ref, ghost core: TypeTree, ghost prefix: seq<Type>) returns (ref': Ref)
      requires Ready() && 0 < current
      requires document.arenas.types == prefix + TypeLayout(core, |prefix|) && ref == |document.arenas.types| - 1
      modifies this, document`arenas
      ensures Reports(BangAt(tokens, old(current), core))
      ensures document.arenas == old(document.arenas).(types := document.arenas.types)
      ensures old(document.arenas.types) <= document.arenas.types
      ensures BangAt(tokens, old(current), core).Ok? ==>
        && document.arenas.types == prefix + TypeLayout(BangAt(tokens, old(current), core).value, |prefix|)
        && ref' == |document.arenas.types| - 1
    {
      ref' := ref;
      if Peek() == Bang {
        var _ := Read();
        if Peek() == Bang {
          Fail();
        } else {
          NonNullLayoutAppend(prefix, core);
          document.arenas := PushType(document.arenas, NonNullType(ref));
          ref' := |document.arenas.types| - 1;
        }
      }
    }

    /** A named type, or a list type with its closing bracket; no trailing `!`. */
    method ParseCoreType() returns (ref: Ref)
      requires Ready()
      modifies this, document`arenas
      ensures Reports(CoreTypeAt(tokens, old(current)))
      ensures document.arenas == old(document.arenas).(types := document.arenas.types)
      ensures old(document.arenas.types) <= document.arenas.types
      ensures CoreTypeAt(tokens, old(current)).Ok? ==>
        && document.arenas.types == old(document.arenas.types) + TypeLayout(CoreTypeAt(tokens, old(current)).value, |old(document.arenas.types)|)
        && ref == |document.arenas.types| - 1
      decreases |tokens| - current, 1
    {
      ref := 0;
      if IsName(Peek()) {
        var name := Read();
        document.arenas := PushType(document.arenas, NamedType(name.literal));
        ref := |document.arenas.types| - 1;
      } else if Peek() == SquareBracketOpen {
        ref := ParseListType();
      } else {
        Fail();
      }
    }

    /** `[` Type `]`: the wrapped type's nodes, then the list node pointing at the last of them. */
    method ParseListType() returns (ref: Ref)
      requires Ready() && Peek() == SquareBracketOpen
      modifies this, document`arenas
      ensures Reports(ListTypeAt(tokens, old(current)))
      ensures document.arenas == old(document.arenas).(types := document.arenas.types)
      ensures old(document.arenas.types) <= document.arenas.types
      ensures ListTypeAt(tokens, old(current)).Ok? ==>
        && document.arenas.types == old(document.arenas.types) + TypeLayout(ListTypeAt(tokens, old(current)).value, |old(document.arenas.types)|)
        && ref == |document.arenas.types| - 1
      decreases |tokens| - current, 0
    {
      ref := 0;
      var _ := Read();
      var inner := ParseType();
      if err.None? {
        ref := ParseListClose(inner, TypeAt(tokens, old(current) + 1).value, old(document.arenas.types));
      }
    }

    /** The `]` after a list's type `inner`, laid out after `prefix`; it appends the list node. */
    method ParseListClose(ref: Ref, ghost inner: TypeTree, ghost prefix: seq<Type>) returns (ref': Ref)
      requires Ready() && 0 < current
      requires document.arenas.types == prefix + TypeLayout(inner, |prefix|) && ref == |document.arenas.types| - 1
      modifies this, document`arenas
      ensures Reports(ListCloseAt(tokens, old(current), inner))
      ensures document.arenas == old(document.arenas).(types := document.arenas.types)
      ensures old(document.arenas.types) <= document.arenas.types
      ensures ListCloseAt(tokens, old(current), inner).Ok? ==>
        && document.arenas.types == prefix + TypeLayout(ListT(inner), |prefix|)
        && ref' == |document.arenas.types| - 1
    {
      ref' := ref;
      if Peek() != SquareBracketClose {
        Fail();
      } else {
        ListLayoutAppend(prefix, inner);
        var _ := Read();
        document.arenas := PushType(document.arenas, ListType(ref));
        ref' := |document.arenas.types| - 1;
      }
    }

    // ------------------------------------------------------------ values

    /** parseValue: the value's nodes are appended to their arenas; the returned Value points at them. */
    method ParseValue() returns (value: Value, ghost tree: ValueTree)
      requires Ready()
      modifies this, document`arenas
      ensures Reports(ValueAt(tokens, old(current)))
      ensures Grown(old(document.arenas), document.arenas)
      ensures ValueAt(tokens, old(current)).Ok? ==> tree == ValueAt(tokens, old(current)).value && DenotesValue(document.arenas, value, tree)
      decreases |tokens| - current, 1
    {
      var k := Peek();
      if k == SquareBracketOpen {
        value, tree := ParseListValue();
      } else if k == CurlyBracketOpen {
        value, tree := ParseObjectValue();
      } else {
        value, tree := ParseScalarValue();
      }
    }

    /** Every value other than a list or an object. */
    method ParseScalarValue() returns (value: Value, ghost tree: ValueTree)
      requires Ready() && Peek() !in {SquareBracketOpen, CurlyBracketOpen}
      modifies this, document`arenas
      ensures Reports(ScalarValueAt(tokens, old(current)))
      ensures Grown(old(document.arenas), document.arenas)
      ensures ScalarValueAt(tokens, old(current)).Ok? ==> tree == ScalarValueAt(tokens, old(current)).value && DenotesValue(document.arenas, value, tree)
    {
      var k := Peek();
      if k == Dollar {
        value, tree := ParseVariableValue();
      } else if k == Integer || k == Float {
        value, tree := ParseNumber(false);
      } else if k == Sub {
        value, tree := ParseNegativeNumber();
      } else if k == String || k == BlockString {
        value, tree := ParseStringValue();
      } else {
        value, tree := ParseNamedValue();
      }
    }

    /** A string or block string, appended to StringValues with its raw content. */
    method ParseStringValue() returns (value: Value, ghost tree: ValueTree)
      requires Ready() && Peek() in {String, BlockString}
      modifies this, document`arenas
      ensures current == old(current) + 1 && err.None?
      ensures Grown(old(document.arenas), document.arenas)
      ensures tree == StringV(old(Peek()) == BlockString, LiteralAt(tokens, old(current)))
      ensures DenotesValue(document.arenas, value, tree)
    {
      var s := Read();
      document.arenas := PushStringValue(document.arenas, StringValue(s.keyword == BlockString, s.literal));
      value, tree := Value(ValueKindString, |document.arenas.stringValues| - 1), StringV(s.keyword == BlockString, s.literal);
    }

    /** `true`, `false`, `null`, or any other Name as an enum value; anything else fails. */
    method ParseNamedValue() returns (value: Value, ghost tree: ValueTree)
      requires Ready() && Peek() !in {SquareBracketOpen, CurlyBracketOpen, Dollar, Integer, Float, Sub, String, BlockString}
      modifies this, document`arenas
      ensures Reports(NamedValueAt(tokens, old(current)))
      ensures Grown(old(document.arenas), document.arenas)
      ensures NamedValueAt(tokens, old(current)).Ok? ==> tree == NamedValueAt(tokens, old(current)).value && DenotesValue(document.arenas, value, tree)
    {
      value, tree := Value(ValueKindNull, 0), NullV;
      var k := Peek();
      if k == True || k == False {
        var _ := Read();
        value, tree := Value(ValueKindBoolean, if k == True then 1 else 0), BooleanV(k == True);
      } else if k == Null {
        var _ := Read();
      } else if IsName(k) {
        var name := Read();
        document.arenas := PushEnumValue(document.arenas, EnumValue(name.literal));
        value, tree := Value(ValueKindEnum, |document.arenas.enumValues| - 1), EnumV(name.literal);
      } else {
        Fail();
      }
    }

    /** `$name`: the name, without the `$`, is appended to VariableValues. */
    method ParseVariableValue() returns (value: Value, ghost tree: ValueTree)
      requires Ready() && Peek() == Dollar
      modifies this, document`arenas
      ensures Reports(VariableNameAt(tokens, old(current)))
      ensures Grown(old(document.arenas), document.arenas)
      ensures VariableNameAt(tokens, old(current)).Ok? ==>
        tree == VariableV(VariableNameAt(tokens, old(current)).value) && DenotesValue(document.arenas, value, tree)
    {
      value, tree := Value(ValueKindVariable, 0), NullV;
      var _ := Read();
      if !IsName(Peek()) || SpacedAt(tokens, current) {
        Fail();
      } else {
        var name := Read();
        document.arenas := PushVariableValue(document.arenas, VariableValue(name.literal));
        value, tree := Value(ValueKindVariable, |document.arenas.variableValues| - 1), VariableV(name.literal);
      }
    }

    /** `-` immediately followed by a number. */
    method ParseNegativeNumber() returns (value: Value, ghost tree: ValueTree)
      requires Ready() && Peek() == Sub
      modifies this, document`arenas
      ensures Reports(NegativeNumberAt(tokens, old(current)))
      ensures Grown(old(document.arenas), document.arenas)
      ensures NegativeNumberAt(tokens, old(current)).Ok? ==>
        tree == NegativeNumberAt(tokens, old(current)).value && DenotesValue(document.arenas, value, tree)
    {
      value, tree := Value(ValueKindInteger, 0), NullV;
      var _ := Read();
      if (Peek() != Integer && Peek() != Float) || SpacedAt(tokens, current) {
        Fail();
      } else {
        value, tree := ParseNumber(true);
      }
    }

    /** An integer or float token, negative when a `-` was just read. */
    method ParseNumber(negative: bool) returns (value: Value, ghost tree: ValueTree)
      requires Ready() && Peek() in {Integer, Float}
      modifies this, document`arenas
      ensures current == old(current) + 1 && err.None?
      ensures Grown(old(document.arenas), document.arenas)
      ensures tree == if old(Peek()) == Integer then IntV(negative, LiteralAt(tokens, old(current)))
                      else FloatV(negative, LiteralAt(tokens, old(current)))
      ensures DenotesValue(document.arenas, value, tree)
    {
      var number := Read();
      if number.keyword == Integer {
        document.arenas := PushIntValue(document.arenas, IntValue(negative, number.literal));
        value, tree := Value(ValueKindInteger, |document.arenas.intValues| - 1), IntV(negative, number.literal);
      } else {
        document.arenas := PushFloatValue(document.arenas, FloatValue(negative, number.literal));
        value, tree := Value(ValueKindFloat, |document.arenas.floatValues| - 1), FloatV(negative, number.literal);
      }
    }

    /** A list value: each item is appended to Values and its ref to the list, in order. */
    method ParseListValue() returns (value: Value, ghost tree: ValueTree)
      requires Ready() && Peek() == SquareBracketOpen
      modifies this, document`arenas
      ensures Reports(ListItemsAt(tokens, old(current) + 1))
      ensures Grown(old(document.arenas), document.arenas)
      ensures ListItemsAt(tokens, old(current) + 1).Ok? ==>
        tree == ListV(ListItemsAt(tokens, old(current) + 1).value) && DenotesValue(document.arenas, value, tree)
      decreases |tokens| - current, 0
    {
      value, tree := Value(ValueKindList, 0), NullV;
      var _ := Read();
      var refs, items := ParseListItems();
      if err.None? {
        ghost var before := document.arenas;
        document.arenas := PushListValue(document.arenas, ListValue(refs));
        ValueRefsStable(before, document.arenas, refs, items);
        GrownTransitive(old(document.arenas), before, document.arenas);
        value, tree := Value(ValueKindList, |document.arenas.listValues| - 1), ListV(items);
      }
    }

    /** The items of a list value after its `[`, through the closing `]`. */
    method ParseListItems() returns (refs: seq<Ref>, ghost items: seq<ValueTree>)
      requires Ready()
      modifies this, document`arenas
      ensures Reports(ListItemsAt(tokens, old(current)))
      ensures Grown(old(document.arenas), document.arenas)
      ensures ListItemsAt(tokens, old(current)).Ok? ==>
        items == ListItemsAt(tokens, old(current)).value && DenotesValueRefs(document.arenas, refs, items)
      decreases |tokens| - current, 3
    {
      ghost var start := current;
      refs, items := [], [];
      AfterNothing(ListItemsAt(tokens, current));
      while Peek() != SquareBracketClose
        invariant start <= current <= |tokens| && err.None?
        invariant Grown(old(document.arenas), document.arenas)
        invariant ListItemsAt(tokens, start) == After(items, ListItemsAt(tokens, current))
        invariant DenotesValueRefs(document.arenas, refs, items)
        decreases |tokens| - current
      {
        ghost var before := document.arenas;
        ghost var item;
        refs, item := ParseListItem(refs, items);
        GrownTransitive(old(document.arenas), before, document.arenas);
        if err.Some? {
          return;
        }
        AfterAfter(items, [item], ListItemsAt(tokens, current));
        items := items + [item];
      }
      var _ := Read();
    }

    /** One list item: the value is parsed, appended to Values, and its ref added to `refs`. */
    method ParseListItem(refs: seq<Ref>, ghost items: seq<ValueTree>) returns (refs': seq<Ref>, ghost item: ValueTree)
      requires Ready() && Peek() != SquareBracketClose
      requires DenotesValueRefs(document.arenas, refs, items)
      modifies this, document`arenas
      ensures err.Some? ==> Reports(ListItemsAt(tokens, old(current)))
      ensures Grown(old(document.arenas), document.arenas)
      ensures err.None? ==>
        && old(current) < current <= |tokens|
        && ListItemsAt(tokens, old(current)) == After([item], ListItemsAt(tokens, current))
        && DenotesValueRefs(document.arenas, refs', items + [item])
      decreases |tokens| - current, 2
    {
      refs' := refs;
      ghost var before := document.arenas;
      var value;
      value, item := ParseValue();
      if err.None? {
        ghost var parsed := document.arenas;
        document.arenas := PushValue(document.arenas, value);
        GrownTransitive(before, parsed, document.arenas);
        ValueRefsStable(before, document.arenas, refs, items);
        ValueStable(parsed, document.arenas, value, item);
        ValueRefsAppend(document.arenas, refs, items, |document.arenas.values| - 1, item);
        refs' := refs + [|document.arenas.values| - 1];
      }
    }

    /** An object value: each `name: value` is appended to ObjectFields and its ref to the object, in order. */
    method ParseObjectValue() returns (value: Value, ghost tree: ValueTree)
      requires Ready() && Peek() == CurlyBracketOpen
      modifies this, document`arenas
      ensures Reports(ObjectFieldsAt(tokens, old(current) + 1))
      ensures Grown(old(document.arenas), document.arenas)
      ensures ObjectFieldsAt(tokens, old(current) + 1).Ok? ==>
        tree == ObjectV(ObjectFieldsAt(tokens, old(current) + 1).value) && DenotesValue(document.arenas, value, tree)
      decreases |tokens| - current, 0
    {
      value, tree := Value(ValueKindObject, 0), NullV;
      var _ := Read();
      var refs, fields := ParseObjectFields();
      if err.None? {
        ghost var before := document.arenas;
        document.arenas := PushObjectValue(document.arenas, ObjectValue(refs));
        ObjectFieldRefsStable(before, document.arenas, refs, fields);
        GrownTransitive(old(document.arenas), before, document.arenas);
        value, tree := Value(ValueKindObject, |document.arenas.objectValues| - 1), ObjectV(fields);
      }
    }

    /** The fields of an object value after its `{`, through the closing `}`. */
    method ParseObjectFields() returns (refs: seq<Ref>, ghost fields: seq<ObjectFieldTree>)
      requires Ready()
      modifies this, document`arenas
      ensures Reports(ObjectFieldsAt(tokens, old(current)))
      ensures Grown(old(document.arenas), document.arenas)
      ensures ObjectFieldsAt(tokens, old(current)).Ok? ==>
        fields == ObjectFieldsAt(tokens, old(current)).value && DenotesObjectFieldRefs(document.arenas, refs, fields)
      decreases |tokens| - current, 4
    {
      ghost var start := current;
      refs, fields := [], [];
      AfterNothing(ObjectFieldsAt(tokens, current));
      while Peek() != CurlyBracketClose
        invariant start <= current <= |tokens| && err.None?
        invariant Grown(old(document.arenas), document.arenas)
        invariant ObjectFieldsAt(tokens, start) == After(fields, ObjectFieldsAt(tokens, current))
        invariant DenotesObjectFieldRefs(document.arenas, refs, fields)
        decreases |tokens| - current
      {
        ghost var before := document.arenas;
        ghost var field;
        refs, field := ParseObjectField(refs, fields);
        GrownTransitive(old(document.arenas), before, document.arenas);
        if err.Some? {
          return;
        }
        AfterAfter(fields, [field], ObjectFieldsAt(tokens, current));
        fields := fields + [field];
      }
      var _ := Read();
    }

    /** One `name: value` object field, appended to ObjectFields with its ref added to `refs`. */
    method ParseObjectField(refs: seq<Ref>, ghost fields: seq<ObjectFieldTree>) returns (refs': seq<Ref>, ghost field: ObjectFieldTree)
      requires Ready() && Peek() != CurlyBracketClose
      requires DenotesObjectFieldRefs(document.arenas, refs, fields)
      modifies this, document`arenas
      ensures err.Some? ==> Reports(ObjectFieldsAt(tokens, old(current)))
      ensures Grown(old(document.arenas), document.arenas)
      ensures err.None? ==>
        && old(current) < current <= |tokens|
        && ObjectFieldsAt(tokens, old(current)) == After([field], ObjectFieldsAt(tokens, current))
        && DenotesObjectFieldRefs(document.arenas, refs', fields + [field])
      decreases |tokens| - current, 3
    {
      refs', field := refs, ObjectFieldTree("", NullV);
      if !IsName(Peek()) {
        Fail();
      } else {
        var name := Read();
        if Peek() != Colon {
          Fail();
        } else {
          var _ := Read();
          ObjectFieldsStep(tokens, old(current));
          refs', field := AppendObjectField(name.literal, refs, fields);
        }
      }
    }

    /** The value of an object field named `name`; the field goes to ObjectFields and its ref to `refs`. */
    method AppendObjectField(name: string, refs: seq<Ref>, ghost fields: seq<ObjectFieldTree>) returns (refs': seq<Ref>, ghost field: ObjectFieldTree)
      requires Ready()
      requires DenotesObjectFieldRefs(document.arenas, refs, fields)
      modifies this, document`arenas
      ensures Reports(ValueAt(tokens, old(current)))
      ensures Grown(old(document.arenas), document.arenas)
      ensures ValueAt(tokens, old(current)).Ok? ==>
        && field == ObjectFieldTree(name, ValueAt(tokens, old(current)).value)
        && DenotesObjectFieldRefs(document.arenas, refs', fields + [field])
      decreases |tokens| - current, 2
    {
      refs', field := refs, ObjectFieldTree("", NullV);
      ghost var before := document.arenas;
      var value, tree := ParseValue();
      if err.None? {
        field := ObjectFieldTree(name, tree);
        ghost var parsed := document.arenas;
        document.arenas := PushObjectField(document.arenas, ObjectField(name, value));
        GrownTransitive(before, parsed, document.arenas);
        ObjectFieldRefsStable(before, document.arenas, refs, fields);
        ValueStable(parsed, document.arenas, value, tree);
        ObjectFieldRefsAppend(document.arenas, refs, fields, |document.arenas.objectFields| - 1, field);
        refs' := refs + [|document.arenas.objectFields| - 1];
      }
    }

    // ------------------------------------------------- arguments, directives

    /** Optional arguments `( name: value ... )`; each argument goes to Arguments, in order. */
    method ParseArguments() returns (refs: seq<Ref>, ghost args: seq<ArgumentTree>)
      requires Ready()
      modifies this, document`arenas
      ensures Reports(ArgumentsAt(tokens, old(current)))
      ensures Grown(old(document.arenas), document.arenas)
      ensures ArgumentsAt(tokens, old(current)).Ok? ==>
        args == ArgumentsAt(tokens, old(current)).value && DenotesArgumentRefs(document.arenas, refs, args)
    {
      refs, args := [], [];
      if Peek() == BracketOpen {
        var _ := Read();
        refs, args := ParseArgumentItems();
      }
    }

    /** The arguments after `(`, through the closing `)`. */
    method ParseArgumentItems() returns (refs: seq<Ref>, ghost args: seq<ArgumentTree>)
      requires Ready()
      modifies this, document`arenas
      ensures Reports(ArgumentItemsAt(tokens, old(current)))
      ensures Grown(old(document.arenas), document.arenas)
      ensures ArgumentItemsAt(tokens, old(current)).Ok? ==>
        args == ArgumentItemsAt(tokens, old(current)).value && DenotesArgumentRefs(document.arenas, refs, args)
    {
      ghost var start := current;
      refs, args := [], [];
      AfterNothing(ArgumentItemsAt(tokens, current));
      while Peek() != BracketClose
        invariant start <= current <= |tokens| && err.None?
        invariant Grown(old(document.arenas), document.arenas)
        invariant ArgumentItemsAt(tokens, start) == After(args, ArgumentItemsAt(tokens, current))
        invariant DenotesArgumentRefs(document.arenas, refs, args)
        decreases |tokens| - current
      {
        ghost var before := document.arenas;
        ghost var arg;
        refs, arg := ParseArgument(refs, args);
        GrownTransitive(old(document.arenas), before, document.arenas);
        if err.Some? {
          return;
        }
        AfterAfter(args, [arg], ArgumentItemsAt(tokens, current));
        args := args + [arg];
      }
      var _ := Read();
    }

    /** One `name: value` argument, appended to Arguments with its ref added to `refs`. */
    method ParseArgument(refs: seq<Ref>, ghost args: seq<ArgumentTree>) returns (refs': seq<Ref>, ghost arg: ArgumentTree)
      requires Ready() && Peek() != BracketClose
      requires DenotesArgumentRefs(document.arenas, refs, args)
      modifies this, document`arenas
      ensures err.Some? ==> Reports(ArgumentItemsAt(tokens, old(current)))
      ensures Grown(old(document.arenas), document.arenas)
      ensures err.None? ==>
        && old(current) < current <= |tokens|
        && ArgumentItemsAt(tokens, old(current)) == After([arg], ArgumentItemsAt(tokens, current))
        && DenotesArgumentRefs(document.arenas, refs', args + [arg])
    {
      refs', arg := refs, ArgumentTree("", NullV);
      if !IsName(Peek()) {
        Fail();
      } else {
        var name := Read();
        if Peek() != Colon {
          Fail();
        } else {
          var _ := Read();
          ArgumentItemsStep(tokens, old(current));
          refs', arg := AppendArgument(name.literal, refs, args);
        }
      }
    }

    /** The value of an argument named `name`; the argument goes to Arguments and its ref to `refs`. */
    method AppendArgument(name: string, refs: seq<Ref>, ghost args: seq<ArgumentTree>) returns (refs': seq<Ref>, ghost arg: ArgumentTree)
      requires Ready()
      requires DenotesArgumentRefs(document.arenas, refs, args)
      modifies this, document`arenas
      ensures Reports(ValueAt(tokens, old(current)))
      ensures Grown(old(document.arenas), document.arenas)
      ensures ValueAt(tokens, old(current)).Ok? ==>
        && arg == ArgumentTree(name, ValueAt(tokens, old(current)).value)
        && DenotesArgumentRefs(document.arenas, refs', args + [arg])
    {
      refs', arg := refs, ArgumentTree("", NullV);
      ghost var before := document.arenas;
      var value, tree := ParseValue();
      if err.None? {
        arg := ArgumentTree(name, tree);
        ghost var parsed := document.arenas;
        document.arenas := PushArgument(document.arenas, Argument(name, value));
        GrownTransitive(before, parsed, document.arenas);
        ArgumentRefsStable(before, document.arenas, refs, args);
        ValueStable(parsed, document.arenas, value, arg.value);
        ArgumentRefsAppend(document.arenas, refs, args, |document.arenas.arguments| - 1, arg);
        refs' := refs + [|document.arenas.arguments| - 1];
      }
    }

    /** Zero or more directives; each goes to Directives, in order. */
    method ParseDirectives() returns (refs: seq<Ref>, ghost ds: seq<DirectiveTree>)
      requires Ready()
      modifies this, document`arenas
      ensures Reports(DirectivesAt(tokens, old(current)))
      ensures Grown(old(document.arenas), document.arenas)
      ensures DirectivesAt(tokens, old(current)).Ok? ==>
        ds == DirectivesAt(tokens, old(current)).value && DenotesDirectiveRefs(document.arenas, refs, ds)
    {
      ghost var start := current;
      refs, ds := [], [];
      AfterNothing(DirectivesAt(tokens, current));
      while Peek() == At
        invariant start <= current <= |tokens| && err.None?
        invariant Grown(old(document.arenas), document.arenas)
        invariant DirectivesAt(tokens, start) == After(ds, DirectivesAt(tokens, current))
        invariant DenotesDirectiveRefs(document.arenas, refs, ds)
        decreases |tokens| - current
      {
        DirectivesStep(tokens, current);
        ghost var before := document.arenas;
        ghost var d;
        refs, d := ParseDirective(refs, ds);
        GrownTransitive(old(document.arenas), before, document.arenas);
        if err.Some? {
          return;
        }
        AfterAfter(ds, [d], DirectivesAt(tokens, current));
        ds := ds + [d];
      }
    }

    /** One `@name(arguments)`, appended to Directives with its ref added to `refs`. */
    method ParseDirective(refs: seq<Ref>, ghost ds: seq<DirectiveTree>) returns (refs': seq<Ref>, ghost d: DirectiveTree)
      requires Ready() && Peek() == At
      requires DenotesDirectiveRefs(document.arenas, refs, ds)
      modifies this, document`arenas
      ensures Reports(DirectiveAt(tokens, old(current)))
      ensures Grown(old(document.arenas), document.arenas)
      ensures DirectiveAt(tokens, old(current)).Ok? ==>
        d == DirectiveAt(tokens, old(current)).value && DenotesDirectiveRefs(document.arenas, refs', ds + [d])
    {
      refs', d := refs, DirectiveTree("", []);
      var _ := Read();
      if !IsName(Peek()) {
        Fail();
      } else {
        DirectiveNamed(tokens, current - 1);
        var name := Read();
        refs', d := AppendDirective(name.literal, refs, ds);
      }
    }

    /** The arguments of a directive named `name`; the directive goes to Directives and its ref to `refs`. */
    method AppendDirective(name: string, refs: seq<Ref>, ghost ds: seq<DirectiveTree>) returns (refs': seq<Ref>, ghost d: DirectiveTree)
      requires Ready()
      requires DenotesDirectiveRefs(document.arenas, refs, ds)
      modifies this, document`arenas
      ensures Reports(ArgumentsAt(tokens, old(current)))
      ensures Grown(old(document.arenas), document.arenas)
      ensures ArgumentsAt(tokens, old(current)).Ok? ==>
        && d == DirectiveTree(name, ArgumentsAt(tokens, old(current)).value)
        && DenotesDirectiveRefs(document.arenas, refs', ds + [d])
    {
      refs', d := refs, DirectiveTree("", []);
      ghost var before := document.arenas;
      var argRefs, args := ParseArguments();
      if err.None? {
        d := DirectiveTree(name, args);
        ghost var parsed := document.arenas;
        document.arenas := PushDirective(document.arenas, Ast.Directive(name, argRefs));
        GrownTransitive(before, parsed, document.arenas);
        DirectiveRefsStable(before, document.arenas, refs, ds);
        ArgumentRefsStable(parsed, document.arenas, argRefs, args);
        DirectiveRefsAppend(document.arenas, refs, ds, |document.arenas.directives| - 1, d);
        refs' := refs + [|document.arenas.directives| - 1];
      }
    }

    // ------------------------------------------------- definitions' members

    /** An optional description: a string or block string token, kept raw (no dedent). */
    method ParseDescription() returns (description: Description, ghost d: DescriptionTree)
      requires Ready()
      modifies this
      ensures Ready() && current == DescriptionAt(tokens, old(current)).next
      ensures d == DescriptionAt(tokens, old(current)).value && description == DescriptionOf(d)
    {
      d := NoDescription;
      description := Description(false, false, "");
      var k := Peek();
      if k == String || k == BlockString {
        var t := Read();
        d := Described(k == BlockString, t.literal);
        description := Description(true, k == BlockString, t.literal);
      }
    }

    /** A description, then a name. */
    method ParseDescribedName() returns (description: Description, name: string, ghost d: DescriptionTree)
      requires Ready()
      modifies this
      ensures Reports(DescribedNameAt(tokens, old(current)))
      ensures description == DescriptionOf(d)
      ensures DescribedNameAt(tokens, old(current)).Ok? ==> DescribedNameAt(tokens, old(current)).value == DescribedName(d, name)
    {
      name := "";
      description, d := ParseDescription();
      if IsName(Peek()) {
        var t := Read();
        name := t.literal;
      } else {
        Fail();
      }
    }

    /** Reads the token `k`; any other token is an error. */
    method Expect(k: Keyword)
      requires Ready() && k != Eof
      modifies this
      ensures Reports(ExpectAt(tokens, old(current), k))
    {
      if Peek() == k {
        var _ := Read();
      } else {
        Fail();
      }
    }

    /** An optional `= value`. */
    method ParseDefaultValue() returns (dv: Option<Value>, ghost t: Option<ValueTree>)
      requires Ready()
      modifies this, document`arenas
      ensures Reports(DefaultValueAt(tokens, old(current)))
      ensures Grown(old(document.arenas), document.arenas)
      ensures DefaultValueAt(tokens, old(current)).Ok? ==>
        t == DefaultValueAt(tokens, old(current)).value && DenotesDefaultValue(document.arenas, dv, t)
    {
      dv, t := None, None;
      if Peek() == Equals {
        var _ := Read();
        var value, tree := ParseValue();
        if err.None? {
          dv, t := Some(value), Some(tree);
        }
      }
    }

    // --------------------------------------------- input value definitions

    /** Optional `( input value definitions )` of a field or directive definition. */
    method ParseArgumentsDefinition() returns (refs: seq<Ref>, ghost ts: seq<InputValueTree>)
      requires Ready()
      modifies this, document`arenas
      ensures Reports(ArgumentsDefinitionAt(tokens, old(current)))
      ensures Grown(old(document.arenas), document.arenas)
      ensures ArgumentsDefinitionAt(tokens, old(current)).Ok? ==>
        ts == ArgumentsDefinitionAt(tokens, old(current)).value && DenotesInputValueRefs(document.arenas, refs, ts)
    {
      refs, ts := [], [];
      if Peek() == BracketOpen {
        var _ := Read();
        refs, ts := ParseInputValueDefinitions(BracketClose);
      }
    }

    /** Input value definitions through the `close` token: `)` for arguments, `}` for input fields. */
    method ParseInputValueDefinitions(close: Keyword) returns (refs: seq<Ref>, ghost ts: seq<InputValueTree>)
      requires Ready() && (close == BracketClose || close == CurlyBracketClose)
      modifies this, document`arenas
      ensures Reports(InputValueDefinitionsAt(tokens, old(current), close))
      ensures Grown(old(document.arenas), document.arenas)
      ensures InputValueDefinitionsAt(tokens, old(current), close).Ok? ==>
        ts == InputValueDefinitionsAt(tokens, old(current), close).value && DenotesInputValueRefs(document.arenas, refs, ts)
    {
      ghost var start := current;
      refs, ts := [], [];
      AfterNothing(InputValueDefinitionsAt(tokens, current, close));
      while Peek() != close
        invariant start <= current <= |tokens| && err.None?
        invariant Grown(old(document.arenas), document.arenas)
        invariant InputValueDefinitionsAt(tokens, start, close) == After(ts, InputValueDefinitionsAt(tokens, current, close))
        invariant DenotesInputValueRefs(document.arenas, refs, ts)
        decreases |tokens| - current
      {
        InputValueDefinitionsStep(tokens, current, close);
        ghost var before := document.arenas;
        ghost var t;
        refs, t := ParseInputValueDefinition(refs, ts);
        GrownTransitive(old(document.arenas), before, document.arenas);
        if err.Some? {
          return;
        }
        AfterAfter(ts, [t], InputValueDefinitionsAt(tokens, current, close));
        ts := ts + [t];
      }
      var _ := Read();
    }

    /** One input value definition, appended to InputValueDefinitions with its ref added to `refs`. */
    method ParseInputValueDefinition(refs: seq<Ref>, ghost ts: seq<InputValueTree>) returns (refs': seq<Ref>, ghost t: InputValueTree)
      requires Ready()
      requires DenotesInputValueRefs(document.arenas, refs, ts)
      modifies this, document`arenas
      ensures Reports(InputValueDefinitionAt(tokens, old(current)))
      ensures Grown(old(document.arenas), document.arenas)
      ensures InputValueDefinitionAt(tokens, old(current)).Ok? ==>
        t == InputValueDefinitionAt(tokens, old(current)).value && DenotesInputValueRefs(document.arenas, refs', ts + [t])
    {
      refs', t := refs, InputValueTree(NoDescription, "", NamedT(""), None, []);
      ghost var rh := DescribedNameAt(tokens, current);
      var description, name, d := ParseDescribedName();
      if err.None? {
        ghost var rc := ExpectAt(tokens, rh.next, Colon);
        assert InputValueDefinitionAt(tokens, old(current))
            == if rc.Err? then Err(rc.at) else InputValueTypedAt(tokens, rc.next, rh.value.description, rh.value.name);
        ghost var named := document.arenas;
        Expect(Colon);
        assert document.arenas == named;
        if err.None? {
          refs', t := ParseInputValueTyped(description, d, name, refs, ts);
        }
      }
    }

    /** An input value definition after its `:`: the type, then the rest. */
    method ParseInputValueTyped(description: Description, ghost d: DescriptionTree, name: string, refs: seq<Ref>, ghost ts: seq<InputValueTree>)
      returns (refs': seq<Ref>, ghost t: InputValueTree)
      requires Ready() && description == DescriptionOf(d)
      requires DenotesInputValueRefs(document.arenas, refs, ts)
      modifies this, document`arenas
      ensures Reports(InputValueTypedAt(tokens, old(current), d, name))
      ensures Grown(old(document.arenas), document.arenas)
      ensures InputValueTypedAt(tokens, old(current), d, name).Ok? ==>
        t == InputValueTypedAt(tokens, old(current), d, name).value && DenotesInputValueRefs(document.arenas, refs', ts + [t])
    {
      refs', t := refs, InputValueTree(NoDescription, "", NamedT(""), None, []);
      ghost var before := document.arenas;
      var typeRef := ParseType();
      TypesGrown(before, document.arenas);
      if err.None? {
        ghost var valueType := TypeAt(tokens, old(current)).value;
        TypeParsedDenotes(document.arenas, before.types, valueType);
        InputValueRefsStable(before, document.arenas, refs, ts);
        ghost var typed := document.arenas;
        refs', t := AppendInputValue(description, d, name, typeRef, valueType, refs, ts);
        GrownTransitive(before, typed, document.arenas);
      }
    }

    /** Default value and directives of an input value whose type is parsed; the definition goes to InputValueDefinitions. */
    method AppendInputValue(description: Description, ghost d: DescriptionTree, name: string, typeRef: Ref, ghost valueType: TypeTree,
                            refs: seq<Ref>, ghost ts: seq<InputValueTree>)
      returns (refs': seq<Ref>, ghost t: InputValueTree)
      requires Ready() && description == DescriptionOf(d)
      requires DenotesType(document.arenas, typeRef, valueType)
      requires DenotesInputValueRefs(document.arenas, refs, ts)
      modifies this, document`arenas
      ensures Reports(InputValueFinishAt(tokens, old(current), d, name, valueType))
      ensures Grown(old(document.arenas), document.arenas)
      ensures InputValueFinishAt(tokens, old(current), d, name, valueType).Ok? ==>
        && t == InputValueFinishAt(tokens, old(current), d, name, valueType).value
        && DenotesInputValueRefs(document.arenas, refs', ts + [t])
    {
      refs', t := refs, InputValueTree(NoDescription, "", NamedT(""), None, []);
      ghost var before := document.arenas;
      ghost var r := InputValueFinishAt(tokens, current, d, name, valueType);
      ghost var rv := DefaultValueAt(tokens, current);
      var defaultValue, dv := ParseDefaultValue();
      if err.None? {
        ghost var rd := DirectivesAt(tokens, rv.next);
        assert r == (if rd.Err? then Err(rd.at) else Ok(InputValueTree(d, name, valueType, rv.value, rd.value), rd.next));
        ghost var defaulted := document.arenas;
        var directiveRefs, ds := ParseDirectives();
        GrownTransitive(before, defaulted, document.arenas);
        if err.None? {
          ghost var parsed := document.arenas;
          GrownTransitive(before, defaulted, parsed);
          TypeStable(before, parsed, typeRef, valueType);
          DefaultValueStable(defaulted, parsed, defaultValue, dv);
          InputValueRefsStable(before, parsed, refs, ts);
          refs', t := StoreInputValue(description, d, name, typeRef, valueType, defaultValue, dv, directiveRefs, ds, refs, ts);
          GrownTransitive(before, parsed, document.arenas);
        }
      }
    }

    /** Appends a parsed input value definition to InputValueDefinitions and its ref to `refs`. */
    method StoreInputValue(description: Description, ghost d: DescriptionTree, name: string, typeRef: Ref, ghost valueType: TypeTree,
                           defaultValue: Option<Value>, ghost dv: Option<ValueTree>, directiveRefs: seq<Ref>, ghost ds: seq<DirectiveTree>,
                           refs: seq<Ref>, ghost ts: seq<InputValueTree>)
      returns (refs': seq<Ref>, ghost t: InputValueTree)
      requires description == DescriptionOf(d)
      requires DenotesType(document.arenas, typeRef, valueType)
      requires DenotesDefaultValue(document.arenas, defaultValue, dv)
      requires DenotesDirectiveRefs(document.arenas, directiveRefs, ds)
      requires DenotesInputValueRefs(document.arenas, refs, ts)
      modifies document`arenas
      ensures Grown(old(document.arenas), document.arenas)
      ensures t == InputValueTree(d, name, valueType, dv, ds) && DenotesInputValueRefs(document.arenas, refs', ts + [t])
    {
      ghost var before := document.arenas;
      t := InputValueTree(d, name, valueType, dv, ds);
      document.arenas := PushInputValueDefinition(document.arenas, InputValueDefinition(description, name, typeRef, defaultValue, directiveRefs));
      TypeStable(before, document.arenas, typeRef, valueType);
      DefaultValueStable(before, document.arenas, defaultValue, dv);
      DirectiveRefsStable(before, document.arenas, directiveRefs, ds);
      InputValueRefsStable(before, document.arenas, refs, ts);
      InputValueRefsAppend(document.arenas, refs, ts, |document.arenas.inputValueDefinitions| - 1, t);
      refs' := refs + [|document.arenas.inputValueDefinitions| - 1];
    }

    // --------------------------------------------------- field definitions

    /** Optional `{ field definitions }` of an object or interface type. */
    method ParseFieldsDefinition() returns (refs: seq<Ref>, ghost ts: seq<FieldDefinitionTree>)
      requires Ready()
      modifies this, document`arenas
      ensures Reports(FieldsDefinitionAt(tokens, old(current)))
      ensures Grown(old(document.arenas), document.arenas)
      ensures FieldsDefinitionAt(tokens, old(current)).Ok? ==>
        ts == FieldsDefinitionAt(tokens, old(current)).value && DenotesFieldDefinitionRefs(document.arenas, refs, ts)
    {
      refs, ts := [], [];
      if Peek() == CurlyBracketOpen {
        var _ := Read();
        refs, ts := ParseFieldDefinitions();
      }
    }

    /** Field definitions after `{`, through the closing `}`. */
    method ParseFieldDefinitions() returns (refs: seq<Ref>, ghost ts: seq<FieldDefinitionTree>)
      requires Ready()
      modifies this, document`arenas
      ensures Reports(FieldDefinitionsAt(tokens, old(current)))
      ensures Grown(old(document.arenas), document.arenas)
      ensures FieldDefinitionsAt(tokens, old(current)).Ok? ==>
        ts == FieldDefinitionsAt(tokens, old(current)).value && DenotesFieldDefinitionRefs(document.arenas, refs, ts)
    {
      ghost var start := current;
      refs, ts := [], [];
      AfterNothing(FieldDefinitionsAt(tokens, current));
      while Peek() != CurlyBracketClose
        invariant start <= current <= |tokens| && err.None?
        invariant Grown(old(document.arenas), document.arenas)
        invariant FieldDefinitionsAt(tokens, start) == After(ts, FieldDefinitionsAt(tokens, current))
        invariant DenotesFieldDefinitionRefs(document.arenas, refs, ts)
        decreases |tokens| - current
      {
        FieldDefinitionsStep(tokens, current);
        ghost var before := document.arenas;
        ghost var t;
        refs, t := ParseFieldDefinition(refs, ts);
        GrownTransitive(old(document.arenas), before, document.arenas);
        if err.Some? {
          return;
        }
        AfterAfter(ts, [t], FieldDefinitionsAt(tokens, current));
        ts := ts + [t];
      }
      var _ := Read();
    }

    /** One field definition, appended to FieldDefinitions with its ref added to `refs`. */
    method ParseFieldDefinition(refs: seq<Ref>, ghost ts: seq<FieldDefinitionTree>) returns (refs': seq<Ref>, ghost t: FieldDefinitionTree)
      requires Ready()
      requires DenotesFieldDefinitionRefs(document.arenas, refs, ts)
      modifies this, document`arenas
      ensures Reports(FieldDefinitionAt(tokens, old(current)))
      ensures Grown(old(document.arenas), document.arenas)
      ensures FieldDefinitionAt(tokens, old(current)).Ok? ==>
        t == FieldDefinitionAt(tokens, old(current)).value && DenotesFieldDefinitionRefs(document.arenas, refs', ts + [t])
    {
      refs', t := refs, FieldDefinitionTree(NoDescription, "", [], NamedT(""), []);
      var description, name, d := ParseDescribedName();
      if err.None? {
        refs', t := ParseFieldDefinitionArguments(description, d, name, refs, ts);
      }
    }

    /** A field definition after its name: its arguments definition and `:`, then the rest. */
    method ParseFieldDefinitionArguments(description: Description, ghost d: DescriptionTree, name: string,
                                         refs: seq<Ref>, ghost ts: seq<FieldDefinitionTree>)
      returns (refs': seq<Ref>, ghost t: FieldDefinitionTree)
      requires Ready() && description == DescriptionOf(d)
      requires DenotesFieldDefinitionRefs(document.arenas, refs, ts)
      modifies this, document`arenas
      ensures Reports(FieldDefinitionArgumentsAt(tokens, old(current), d, name))
      ensures Grown(old(document.arenas), document.arenas)
      ensures FieldDefinitionArgumentsAt(tokens, old(current), d, name).Ok? ==>
        && t == FieldDefinitionArgumentsAt(tokens, old(current), d, name).value
        && DenotesFieldDefinitionRefs(document.arenas, refs', ts + [t])
    {
      refs', t := refs, FieldDefinitionTree(NoDescription, "", [], NamedT(""), []);
      ghost var before := document.arenas;
      var argumentRefs, args := ParseArgumentsDefinition();
      if err.None? {
        FieldDefinitionRefsStable(before, document.arenas, refs, ts);
        ghost var parsed := document.arenas;
        refs', t := ParseFieldDefinitionColon(description, d, name, argumentRefs, args, refs, ts);
        GrownTransitive(before, parsed, document.arenas);
      }
    }

    /** A field definition after its arguments: `:`, then the type and directives. */
    method ParseFieldDefinitionColon(description: Description, ghost d: DescriptionTree, name: string,
                                     argumentRefs: seq<Ref>, ghost args: seq<InputValueTree>,
                                     refs: seq<Ref>, ghost ts: seq<FieldDefinitionTree>)
      returns (refs': seq<Ref>, ghost t: FieldDefinitionTree)
      requires Ready() && description == DescriptionOf(d)
      requires DenotesInputValueRefs(document.arenas, argumentRefs, args)
      requires DenotesFieldDefinitionRefs(document.arenas, refs, ts)
      modifies this, document`arenas
      ensures Reports(FieldDefinitionColonAt(tokens, old(current), d, name, args))
      ensures Grown(old(document.arenas), document.arenas)
      ensures FieldDefinitionColonAt(tokens, old(current), d, name, args).Ok? ==>
        && t == FieldDefinitionColonAt(tokens, old(current), d, name, args).value
        && DenotesFieldDefinitionRefs(document.arenas, refs', ts + [t])
    {
      refs', t := refs, FieldDefinitionTree(NoDescription, "", [], NamedT(""), []);
      if Peek() != Colon {
        Fail();
      } else {
        var _ := Read();
        refs', t := AppendFieldDefinition(description, d, name, argumentRefs, args, refs, ts);
      }
    }

    /** Type and directives of a field definition; the definition goes to FieldDefinitions. */
    method AppendFieldDefinition(description: Description, ghost d: DescriptionTree, name: string,
                                 argumentRefs: seq<Ref>, ghost args: seq<InputValueTree>,
                                 refs: seq<Ref>, ghost ts: seq<FieldDefinitionTree>)
      returns (refs': seq<Ref>, ghost t: FieldDefinitionTree)
      requires Ready() && description == DescriptionOf(d)
      requires DenotesInputValueRefs(document.arenas, argumentRefs, args)
      requires DenotesFieldDefinitionRefs(document.arenas, refs, ts)
      modifies this, document`arenas
      ensures Reports(FieldDefinitionTypedAt(tokens, old(current), d, name, args))
      ensures Grown(old(document.arenas), document.arenas)
      ensures FieldDefinitionTypedAt(tokens, old(current), d, name, args).Ok? ==>
        && t == FieldDefinitionTypedAt(tokens, old(current), d, name, args).value
        && DenotesFieldDefinitionRefs(document.arenas, refs', ts + [t])
    {
      refs', t := refs, FieldDefinitionTree(NoDescription, "", [], NamedT(""), []);
      ghost var before := document.arenas;
      ghost var r := FieldDefinitionTypedAt(tokens, current, d, name, args);
      ghost var rt := TypeAt(tokens, current);
      var typeRef := ParseType();
      TypesGrown(before, document.arenas);
      if err.None? {
        ghost var fieldType := rt.value;
        ghost var rd := DirectivesAt(tokens, rt.next);
        assert r == (if rd.Err? then Err(rd.at) else Ok(FieldDefinitionTree(d, name, args, fieldType, rd.value), rd.next));
        TypeParsedDenotes(document.arenas, before.types, fieldType);
        ghost var typed := document.arenas;
        var directiveRefs, ds := ParseDirectives();
        GrownTransitive(before, typed, document.arenas);
        if err.None? {
          t := FieldDefinitionTree(d, name, args, fieldType, ds);
          ghost var parsed := document.arenas;
          document.arenas := PushFieldDefinition(document.arenas, FieldDefinition(description, name, argumentRefs, typeRef, directiveRefs));
          GrownTransitive(before, parsed, document.arenas);
          GrownTransitive(typed, parsed, document.arenas);
          InputValueRefsStable(before, document.arenas, argumentRefs, args);
          TypeStable(typed, document.arenas, typeRef, fieldType);
          DirectiveRefsStable(parsed, document.arenas, directiveRefs, ds);
          FieldDefinitionRefsStable(before, document.arenas, refs, ts);
          FieldDefinitionRefsAppend(document.arenas, refs, ts, |document.arenas.fieldDefinitions| - 1, t);
          refs' := refs + [|document.arenas.fieldDefinitions| - 1];
        }
      }
    }

    // -------------------------------------------------- enum value definitions

    /** Enum value definitions after `{`, through the closing `}`. */
    method ParseEnumValueDefinitions() returns (refs: seq<Ref>, ghost ts: seq<EnumValueTree>)
      requires Ready()
      modifies this, document`arenas
      ensures Reports(EnumValueDefinitionsAt(tokens, old(current)))
      ensures Grown(old(document.arenas), document.arenas)
      ensures EnumValueDefinitionsAt(tokens, old(current)).Ok? ==>
        ts == EnumValueDefinitionsAt(tokens, old(current)).value && DenotesEnumValueRefs(document.arenas, refs, ts)
    {
      ghost var start := current;
      refs, ts := [], [];
      AfterNothing(EnumValueDefinitionsAt(tokens, current));
      while Peek() != CurlyBracketClose
        invariant start <= current <= |tokens| && err.None?
        invariant Grown(old(document.arenas), document.arenas)
        invariant EnumValueDefinitionsAt(tokens, start) == After(ts, EnumValueDefinitionsAt(tokens, current))
        invariant DenotesEnumValueRefs(document.arenas, refs, ts)
        decreases |tokens| - current
      {
        EnumValueDefinitionsStep(tokens, current);
        ghost var before := document.arenas;
        ghost var t;
        refs, t := ParseEnumValueDefinition(refs, ts);
        GrownTransitive(old(document.arenas), before, document.arenas);
        if err.Some? {
          return;
        }
        AfterAfter(ts, [t], EnumValueDefinitionsAt(tokens, current));
        ts := ts + [t];
      }
      var _ := Read();
    }

    /**
     * One enum value definition, appended to EnumValueDefinitions with its
     * ref added to `refs`; `true`, `false` and `null` are refused.
     */
    method ParseEnumValueDefinition(refs: seq<Ref>, ghost ts: seq<EnumValueTree>) returns (refs': seq<Ref>, ghost t: EnumValueTree)
      requires Ready()
      requires DenotesEnumValueRefs(document.arenas, refs, ts)
      modifies this, document`arenas
      ensures Reports(EnumValueDefinitionAt(tokens, old(current)))
      ensures Grown(old(document.arenas), document.arenas)
      ensures EnumValueDefinitionAt(tokens, old(current)).Ok? ==>
        t == EnumValueDefinitionAt(tokens, old(current)).value && DenotesEnumValueRefs(document.arenas, refs', ts + [t])
    {
      var description, d := ParseDescription();
      refs', t := ParseEnumValueName(description, d, refs, ts);
    }

    /** The enum value itself and its directives, after its description. */
    method ParseEnumValueName(description: Description, ghost d: DescriptionTree, refs: seq<Ref>, ghost ts: seq<EnumValueTree>)
      returns (refs': seq<Ref>, ghost t: EnumValueTree)
      requires Ready() && description == DescriptionOf(d)
      requires DenotesEnumValueRefs(document.arenas, refs, ts)
      modifies this, document`arenas
      ensures Reports(EnumValueNameAt(tokens, old(current), d))
      ensures Grown(old(document.arenas), document.arenas)
      ensures EnumValueNameAt(tokens, old(current), d).Ok? ==>
        t == EnumValueNameAt(tokens, old(current), d).value && DenotesEnumValueRefs(document.arenas, refs', ts + [t])
    {
      refs', t := refs, EnumValueTree(NoDescription, "", []);
      if !IsName(Peek()) || IsReservedEnumValue(Peek()) {
        Fail();
      } else {
        var name := Read();
        var directiveRefs, ds := ParseDirectives();
        if err.None? {
          t := EnumValueTree(d, name.literal, ds);
          ghost var parsed := document.arenas;
          document.arenas := PushEnumValueDefinition(document.arenas, EnumValueDefinition(description, name.literal, directiveRefs));
          GrownTransitive(old(document.arenas), parsed, document.arenas);
          DirectiveRefsStable(parsed, document.arenas, directiveRefs, ds);
          EnumValueRefsStable(old(document.arenas), document.arenas, refs, ts);
          EnumValueRefsAppend(document.arenas, refs, ts, |document.arenas.enumValueDefinitions| - 1, t);
          refs' := refs + [|document.arenas.enumValueDefinitions| - 1];
        }
      }
    }

    // ----------------------------------------------------- separated lists

    /**
     * Names separated by `sep` (`&` between implemented interfaces, `|`
     * between union members), with an optional leading separator; each name
     * goes to Types as a named type.
     */
    method ParseSeparatedNames(sep: Keyword) returns (refs: seq<Ref>, ghost names: seq<string>)
      requires Ready() && (sep == And || sep == Pipe)
      modifies this, document`arenas
      ensures Reports(SeparatedNamesAt(tokens, old(current), sep))
      ensures Grown(old(document.arenas), document.arenas)
      ensures SeparatedNamesAt(tokens, old(current), sep).Ok? ==>
        names == SeparatedNamesAt(tokens, old(current), sep).value && DenotesNamedTypeRefs(document.arenas, refs, names)
    {
      if Peek() == sep {
        var _ := Read();
      }
      refs, names := ParseNamesAfterSeparator(sep);
    }

    /** A name, then another after each separator. */
    method ParseNamesAfterSeparator(sep: Keyword) returns (refs: seq<Ref>, ghost names: seq<string>)
      requires Ready() && (sep == And || sep == Pipe)
      modifies this, document`arenas
      ensures Reports(NamesAfterSeparatorAt(tokens, old(current), sep))
      ensures Grown(old(document.arenas), document.arenas)
      ensures NamesAfterSeparatorAt(tokens, old(current), sep).Ok? ==>
        names == NamesAfterSeparatorAt(tokens, old(current), sep).value && DenotesNamedTypeRefs(document.arenas, refs, names)
    {
      ghost var start := current;
      refs, names := [], [];
      AfterNothing(NamesAfterSeparatorAt(tokens, current, sep));
      while true
        invariant start <= current <= |tokens| && err.None?
        invariant Grown(old(document.arenas), document.arenas)
        invariant NamesAfterSeparatorAt(tokens, start, sep) == After(names, NamesAfterSeparatorAt(tokens, current, sep))
        invariant DenotesNamedTypeRefs(document.arenas, refs, names)
        decreases |tokens| - current
      {
        ghost var at := current;
        ghost var before := document.arenas;
        var name, more;
        refs, name, more := ParseSeparatedName(sep, refs, names);
        GrownTransitive(old(document.arenas), before, document.arenas);
        if err.Some? || !more {
          names := names + [name];
          return;
        }
        AfterAfter(names, [name], NamesAfterSeparatorAt(tokens, current, sep));
        names := names + [name];
      }
    }

    /**
     * One name of a separated list, appended to Types as a named type, and
     * the separator after it if there is one; `more` tells whether there was.
     */
    method ParseSeparatedName(sep: Keyword, refs: seq<Ref>, ghost names: seq<string>) returns (refs': seq<Ref>, name: string, more: bool)
      requires Ready() && (sep == And || sep == Pipe)
      requires DenotesNamedTypeRefs(document.arenas, refs, names)
      modifies this, document`arenas
      ensures current <= |tokens| && Grown(old(document.arenas), document.arenas)
      ensures !IsName(KindAt(tokens, old(current))) ==> Reports(NamesAfterSeparatorAt(tokens, old(current), sep))
      ensures IsName(KindAt(tokens, old(current))) ==> err.None? && DenotesNamedTypeRefs(document.arenas, refs', names + [name])
      ensures IsName(KindAt(tokens, old(current))) && !more ==>
        NamesAfterSeparatorAt(tokens, old(current), sep) == Ok([name], current)
      ensures IsName(KindAt(tokens, old(current))) && more ==>
        old(current) < current &&
        NamesAfterSeparatorAt(tokens, old(current), sep) == After([name], NamesAfterSeparatorAt(tokens, current, sep))
    {
      refs', name, more := refs, "", false;
      if !IsName(Peek()) {
        Fail();
      } else {
        NamesStep(tokens, current, sep);
        refs', name := AppendNamedType(refs, names);
        if Peek() == sep {
          var _ := Read();
          more := true;
        }
      }
    }

    /** The name at the cursor, appended to Types as a named type with its ref added to `refs`. */
    method AppendNamedType(refs: seq<Ref>, ghost names: seq<string>) returns (refs': seq<Ref>, name: string)
      requires Ready() && IsName(Peek())
      requires DenotesNamedTypeRefs(document.arenas, refs, names)
      modifies this, document`arenas
      ensures current == old(current) + 1 && err.None?
      ensures name == LiteralAt(tokens, old(current))
      ensures Grown(old(document.arenas), document.arenas)
      ensures DenotesNamedTypeRefs(document.arenas, refs', names + [name])
    {
      var t := Read();
      name := t.literal;
      ghost var before := document.arenas;
      document.arenas := PushType(document.arenas, NamedType(name));
      NamedTypeRefsStable(before, document.arenas, refs, names);
      refs' := refs + [|document.arenas.types| - 1];
    }

    /** Directive locations separated by `|`, with an optional leading `|`; each name must be a location. */
    method ParseDirectiveLocations() returns (locations: Locations)
      requires Ready()
      modifies this
      ensures Reports(LocationsAt(tokens, old(current)))
      ensures LocationsAt(tokens, old(current)).Ok? ==> locations == LocationsAt(tokens, old(current)).value
    {
      if Peek() == Pipe {
        var _ := Read();
      }
      ghost var start := current;
      locations := {};
      JoinedNothing(LocationsAfterSeparatorAt(tokens, current));
      while true
        invariant start <= current <= |tokens| && err.None?
        invariant LocationsAfterSeparatorAt(tokens, start) == Joined(locations, LocationsAfterSeparatorAt(tokens, current))
        decreases |tokens| - current
      {
        var location, more := ParseLocation();
        if err.Some? || !more {
          locations := locations + {location};
          return;
        }
        JoinedJoined(locations, {location}, LocationsAfterSeparatorAt(tokens, current));
        locations := locations + {location};
      }
    }

    /**
     * One directive location of a `|`-separated list, resolved from its name,
     * and the `|` after it if there is one; `more` tells whether there was.
     */
    method ParseLocation() returns (location: DirectiveLocation, more: bool)
      requires Ready()
      modifies this
      ensures current <= |tokens|
      ensures err.Some? ==> Reports(LocationsAfterSeparatorAt(tokens, old(current)))
      ensures err.None? && !more ==> LocationsAfterSeparatorAt(tokens, old(current)) == Ok({location}, current)
      ensures err.None? && more ==>
        old(current) < current &&
        LocationsAfterSeparatorAt(tokens, old(current)) == Joined({location}, LocationsAfterSeparatorAt(tokens, current))
    {
      location, more := ExecutableDirectiveLocationQuery, false;
      if !IsName(Peek()) {
        Fail();
      } else {
        var found := FromName(LiteralAt(tokens, current));
        LocationsStep(tokens, current, found);
        if found.None? {
          Fail();
        } else {
          location := found.value;
          var _ := Read();
          if Peek() == Pipe {
            var _ := Read();
            more := true;
          }
        }
      }
    }

    // ---------------------------------------------------------- selections

    /** Selection set `{ selections }`; each selection goes to Selections, in order. */
    method ParseSelectionSet() returns (refs: seq<Ref>, ghost ts: seq<SelectionTree>)
      requires Ready()
      modifies this, document`arenas
      ensures Reports(SelectionSetAt(tokens, old(current)))
      ensures Grown(old(document.arenas), document.arenas)
      ensures SelectionSetAt(tokens, old(current)).Ok? ==>
        ts == SelectionSetAt(tokens, old(current)).value && DenotesSelectionRefs(document.arenas, refs, ts)
      decreases |tokens| - current, 0
    {
      refs, ts := [], [];
      if Peek() != CurlyBracketOpen {
        Fail();
      } else {
        var _ := Read();
        refs, ts := ParseSelections();
      }
    }

    /** Selections after `{`, through the closing `}`. */
    method ParseSelections() returns (refs: seq<Ref>, ghost ts: seq<SelectionTree>)
      requires Ready()
      modifies this, document`arenas
      ensures Reports(SelectionsAt(tokens, old(current)))
      ensures Grown(old(document.arenas), document.arenas)
      ensures SelectionsAt(tokens, old(current)).Ok? ==>
        ts == SelectionsAt(tokens, old(current)).value && DenotesSelectionRefs(document.arenas, refs, ts)
      decreases |tokens| - current, 3
    {
      ghost var start := current;
      refs, ts := [], [];
      AfterNothing(SelectionsAt(tokens, current));
      while Peek() != CurlyBracketClose
        invariant start <= current <= |tokens| && err.None?
        invariant Grown(old(document.arenas), document.arenas)
        invariant SelectionsAt(tokens, start) == After(ts, SelectionsAt(tokens, current))
        invariant DenotesSelectionRefs(document.arenas, refs, ts)
        decreases |tokens| - current
      {
        SelectionsStep(tokens, current);
        ghost var before := document.arenas;
        ghost var t;
        refs, t := ParseSelection(refs, ts);
        GrownTransitive(old(document.arenas), before, document.arenas);
        if err.Some? {
          return;
        }
        AfterAfter(ts, [t], SelectionsAt(tokens, current));
        ts := ts + [t];
      }
      var _ := Read();
    }

    /**
     * One selection: a field, or after `...` an inline fragment (when `on`,
     * `@` or `{` follows) or else a fragment spread.
     */
    method ParseSelection(refs: seq<Ref>, ghost ts: seq<SelectionTree>) returns (refs': seq<Ref>, ghost t: SelectionTree)
      requires Ready()
      requires DenotesSelectionRefs(document.arenas, refs, ts)
      modifies this, document`arenas
      ensures Reports(SelectionAt(tokens, old(current)))
      ensures Grown(old(document.arenas), document.arenas)
      ensures SelectionAt(tokens, old(current)).Ok? ==>
        t == SelectionAt(tokens, old(current)).value && DenotesSelectionRefs(document.arenas, refs', ts + [t])
      decreases |tokens| - current, 2
    {
      refs', t := refs, SpreadT("", []);
      if Peek() == Spread {
        var _ := Read();
        var k := Peek();
        if k == On || k == At || k == CurlyBracketOpen {
          refs', t := ParseInlineFragment(refs, ts);
        } else {
          refs', t := ParseFragmentSpread(refs, ts);
        }
      } else if IsName(Peek()) {
        refs', t := ParseField(refs, ts);
      } else {
        Fail();
      }
    }

    /** A selection node for a field, inline fragment or spread already stored; its ref goes to `refs`. */
    method AppendSelection(s: Selection, ghost t: SelectionTree, refs: seq<Ref>, ghost ts: seq<SelectionTree>) returns (refs': seq<Ref>)
      requires DenotesSelection(document.arenas, s, t) && DenotesSelectionRefs(document.arenas, refs, ts)
      modifies document`arenas
      ensures Grown(old(document.arenas), document.arenas)
      ensures DenotesSelectionRefs(document.arenas, refs', ts + [t])
    {
      ghost var before := document.arenas;
      document.arenas := PushSelection(document.arenas, s);
      SelectionStable(before, document.arenas, s, t);
      SelectionRefsStable(before, document.arenas, refs, ts);
      SelectionRefsAppend(document.arenas, refs, ts, |document.arenas.selections| - 1, t);
      refs' := refs + [|document.arenas.selections| - 1];
    }

    /** A field: `alias:` and name, or the name alone, then the rest. */
    method ParseField(refs: seq<Ref>, ghost ts: seq<SelectionTree>) returns (refs': seq<Ref>, ghost t: SelectionTree)
      requires Ready()
      requires DenotesSelectionRefs(document.arenas, refs, ts)
      modifies this, document`arenas
      ensures Reports(FieldAt(tokens, old(current)))
      ensures Grown(old(document.arenas), document.arenas)
      ensures FieldAt(tokens, old(current)).Ok? ==>
        t == FieldAt(tokens, old(current)).value && DenotesSelectionRefs(document.arenas, refs', ts + [t])
      decreases |tokens| - current, 1
    {
      refs', t := refs, SpreadT("", []);
      var alias, name := ParseFieldName();
      if err.None? {
        refs', t := AppendField(alias, name, refs, ts);
      }
    }

    /** A field's name, and its alias when the name follows an alias and `:`. */
    method ParseFieldName() returns (alias: Option<string>, name: string)
      requires Ready()
      modifies this
      ensures Reports(FieldNameAt(tokens, old(current)))
      ensures FieldNameAt(tokens, old(current)).Ok? ==> FieldNameAt(tokens, old(current)).value == FieldName(alias, name)
    {
      alias, name := None, "";
      if !IsName(Peek()) {
        Fail();
      } else {
        var first := Read();
        name := first.literal;
        if Peek() == Colon {
          var _ := Read();
          if !IsName(Peek()) {
            Fail();
          } else {
            var second := Read();
            alias, name := Some(first.literal), second.literal;
          }
        }
      }
    }

    /** A field after its name: arguments and directives, then the rest. */
    method AppendField(alias: Option<string>, name: string, refs: seq<Ref>, ghost ts: seq<SelectionTree>) returns (refs': seq<Ref>, ghost t: SelectionTree)
      requires Ready()
      requires DenotesSelectionRefs(document.arenas, refs, ts)
      modifies this, document`arenas
      ensures Reports(FieldAfterNameAt(tokens, old(current), alias, name))
      ensures Grown(old(document.arenas), document.arenas)
      ensures FieldAfterNameAt(tokens, old(current), alias, name).Ok? ==>
        t == FieldAfterNameAt(tokens, old(current), alias, name).value && DenotesSelectionRefs(document.arenas, refs', ts + [t])
      decreases |tokens| - current, 2
    {
      refs', t := refs, SpreadT("", []);
      ghost var before := document.arenas;
      var argumentRefs, args := ParseArguments();
      if err.None? {
        ghost var argued := document.arenas;
        var directiveRefs, ds := ParseDirectives();
        GrownTransitive(before, argued, document.arenas);
        if err.None? {
          ArgumentRefsStable(argued, document.arenas, argumentRefs, args);
          SelectionRefsStable(before, document.arenas, refs, ts);
          ghost var directed := document.arenas;
          refs', t := FinishField(alias, name, argumentRefs, args, directiveRefs, ds, refs, ts);
          GrownTransitive(before, directed, document.arenas);
        }
      }
    }

    /** A field after its directives: an optional selection set; the field goes to Fields. */
    method FinishField(alias: Option<string>, name: string, argumentRefs: seq<Ref>, ghost args: seq<ArgumentTree>,
                       directiveRefs: seq<Ref>, ghost ds: seq<DirectiveTree>, refs: seq<Ref>, ghost ts: seq<SelectionTree>)
      returns (refs': seq<Ref>, ghost t: SelectionTree)
      requires Ready()
      requires DenotesArgumentRefs(document.arenas, argumentRefs, args)
      requires DenotesDirectiveRefs(document.arenas, directiveRefs, ds)
      requires DenotesSelectionRefs(document.arenas, refs, ts)
      modifies this, document`arenas
      ensures Reports(FieldBodyAt(tokens, old(current), alias, name, args, ds))
      ensures Grown(old(document.arenas), document.arenas)
      ensures FieldBodyAt(tokens, old(current), alias, name, args, ds).Ok? ==>
        t == FieldBodyAt(tokens, old(current), alias, name, args, ds).value && DenotesSelectionRefs(document.arenas, refs', ts + [t])
      decreases |tokens| - current, 1
    {
      refs', t := refs, SpreadT("", []);
      ghost var before := document.arenas;
      var selectionSet: Option<seq<Ref>> := None;
      ghost var sub := Leaf;
      if Peek() == CurlyBracketOpen {
        var selectionRefs, selections := ParseSelectionSet();
        if err.None? {
          selectionSet, sub := Some(selectionRefs), Nested(selections);
        }
      }
      if err.None? {
        t := FieldT(alias, name, args, ds, sub);
        ghost var parsed := document.arenas;
        document.arenas := PushField(document.arenas, Field(alias, name, argumentRefs, directiveRefs, selectionSet));
        GrownTransitive(before, parsed, document.arenas);
        ArgumentRefsStable(before, document.arenas, argumentRefs, args);
        DirectiveRefsStable(before, document.arenas, directiveRefs, ds);
        if sub.Nested? {
          SelectionRefsStable(parsed, document.arenas, selectionSet.value, sub.selections);
        }
        SelectionRefsStable(before, document.arenas, refs, ts);
        ghost var stored := document.arenas;
        refs' := AppendSelection(Selection(SelectionKindField, |document.arenas.fields| - 1), t, refs, ts);
        GrownTransitive(before, stored, document.arenas);
      }
    }

    /** A fragment spread after `...`: a name other than `on`, then directives. */
    method ParseFragmentSpread(refs: seq<Ref>, ghost ts: seq<SelectionTree>) returns (refs': seq<Ref>, ghost t: SelectionTree)
      requires Ready()
      requires DenotesSelectionRefs(document.arenas, refs, ts)
      modifies this, document`arenas
      ensures Reports(FragmentSpreadAt(tokens, old(current)))
      ensures Grown(old(document.arenas), document.arenas)
      ensures FragmentSpreadAt(tokens, old(current)).Ok? ==>
        t == FragmentSpreadAt(tokens, old(current)).value && DenotesSelectionRefs(document.arenas, refs', ts + [t])
    {
      refs', t := refs, SpreadT("", []);
      if Peek() == On || !IsName(Peek()) {
        Fail();
      } else {
        var name := Read();
        ghost var before := document.arenas;
        var directiveRefs, ds := ParseDirectives();
        if err.None? {
          t := SpreadT(name.literal, ds);
          ghost var parsed := document.arenas;
          SelectionRefsStable(before, parsed, refs, ts);
          refs' := StoreFragmentSpread(name.literal, directiveRefs, ds, refs, ts);
          GrownTransitive(before, parsed, document.arenas);
        }
      }
    }

    /** Appends a parsed fragment spread to FragmentSpreads and its selection to Selections. */
    method StoreFragmentSpread(name: string, directiveRefs: seq<Ref>, ghost ds: seq<DirectiveTree>, refs: seq<Ref>, ghost ts: seq<SelectionTree>)
      returns (refs': seq<Ref>)
      requires DenotesDirectiveRefs(document.arenas, directiveRefs, ds)
      requires DenotesSelectionRefs(document.arenas, refs, ts)
      modifies document`arenas
      ensures Grown(old(document.arenas), document.arenas)
      ensures DenotesSelectionRefs(document.arenas, refs', ts + [SpreadT(name, ds)])
    {
      ghost var before := document.arenas;
      document.arenas := PushFragmentSpread(document.arenas, FragmentSpread(name, directiveRefs));
      DirectiveRefsStable(before, document.arenas, directiveRefs, ds);
      SelectionRefsStable(before, document.arenas, refs, ts);
      ghost var stored := document.arenas;
      refs' := AppendSelection(Selection(SelectionKindFragmentSpread, |document.arenas.fragmentSpreads| - 1), SpreadT(name, ds), refs, ts);
      GrownTransitive(before, stored, document.arenas);
    }

    /** An inline fragment after `...`: an optional `on` type condition, then the rest. */
    method ParseInlineFragment(refs: seq<Ref>, ghost ts: seq<SelectionTree>) returns (refs': seq<Ref>, ghost t: SelectionTree)
      requires Ready()
      requires DenotesSelectionRefs(document.arenas, refs, ts)
      modifies this, document`arenas
      ensures Reports(InlineFragmentAt(tokens, old(current)))
      ensures Grown(old(document.arenas), document.arenas)
      ensures InlineFragmentAt(tokens, old(current)).Ok? ==>
        t == InlineFragmentAt(tokens, old(current)).value && DenotesSelectionRefs(document.arenas, refs', ts + [t])
      decreases |tokens| - current, 3
    {
      refs', t := refs, SpreadT("", []);
      ghost var before := document.arenas;
      var condition, conditionName := ParseTypeCondition();
      if err.None? {
        ghost var named := document.arenas;
        SelectionRefsStable(before, named, refs, ts);
        refs', t := ParseInlineFragmentBody(condition, conditionName, refs, ts);
        GrownTransitive(before, named, document.arenas);
      }
    }

    /** An optional `on Name`; the name goes to Types as a named type. */
    method ParseTypeCondition() returns (condition: Option<Ref>, ghost name: Option<string>)
      requires Ready()
      modifies this, document`arenas
      ensures Reports(TypeConditionAt(tokens, old(current)))
      ensures Grown(old(document.arenas), document.arenas)
      ensures TypeConditionAt(tokens, old(current)).Ok? ==>
        && name == TypeConditionAt(tokens, old(current)).value
        && condition.Some? == name.Some?
        && (name.Some? ==> DenotesTypeCondition(document.arenas, condition.value, name.value))
    {
      condition, name := None, None;
      if Peek() == On {
        var _ := Read();
        if IsName(Peek()) {
          var t := Read();
          document.arenas := PushType(document.arenas, NamedType(t.literal));
          condition, name := Some(|document.arenas.types| - 1), Some(t.literal);
        } else {
          Fail();
        }
      }
    }

    /** An inline fragment after its type condition: directives and selection set; the fragment goes to InlineFragments. */
    method ParseInlineFragmentBody(condition: Option<Ref>, ghost conditionName: Option<string>, refs: seq<Ref>, ghost ts: seq<SelectionTree>)
      returns (refs': seq<Ref>, ghost t: SelectionTree)
      requires Ready()
      requires condition.Some? == conditionName.Some?
      requires conditionName.Some? ==> DenotesTypeCondition(document.arenas, condition.value, conditionName.value)
      requires DenotesSelectionRefs(document.arenas, refs, ts)
      modifies this, document`arenas
      ensures Reports(InlineFragmentBodyAt(tokens, old(current), conditionName))
      ensures Grown(old(document.arenas), document.arenas)
      ensures InlineFragmentBodyAt(tokens, old(current), conditionName).Ok? ==>
        t == InlineFragmentBodyAt(tokens, old(current), conditionName).value && DenotesSelectionRefs(document.arenas, refs', ts + [t])
      decreases |tokens| - current, 2
    {
      refs', t := refs, SpreadT("", []);
      ghost var before := document.arenas;
      var directiveRefs, ds := ParseDirectives();
      if err.None? {
        ghost var directed := document.arenas;
        if conditionName.Some? {
          TypeConditionStable(before, directed, condition.value, conditionName.value);
        }
        SelectionRefsStable(before, directed, refs, ts);
        refs', t := ParseInlineFragmentSelections(condition, conditionName, directiveRefs, ds, refs, ts);
        GrownTransitive(before, directed, document.arenas);
      }
    }

    /** An inline fragment after its directives: the selection set; the fragment goes to InlineFragments. */
    method ParseInlineFragmentSelections(
      condition: Option<Ref>, ghost conditionName: Option<string>,
      directiveRefs: seq<Ref>, ghost ds: seq<DirectiveTree>,
      refs: seq<Ref>, ghost ts: seq<SelectionTree>)
      returns (refs': seq<Ref>, ghost t: SelectionTree)
      requires Ready()
      requires condition.Some? == conditionName.Some?
      requires conditionName.Some? ==> DenotesTypeCondition(document.arenas, condition.value, conditionName.value)
      requires DenotesDirectiveRefs(document.arenas, directiveRefs, ds)
      requires DenotesSelectionRefs(document.arenas, refs, ts)
      modifies this, document`arenas
      ensures Reports(InlineFragmentSelectionsAt(tokens, old(current), conditionName, ds))
      ensures Grown(old(document.arenas), document.arenas)
      ensures InlineFragmentSelectionsAt(tokens, old(current), conditionName, ds).Ok? ==>
        t == InlineFragmentSelectionsAt(tokens, old(current), conditionName, ds).value &&
        DenotesSelectionRefs(document.arenas, refs', ts + [t])
      decreases |tokens| - current, 1
    {
      refs', t := refs, SpreadT("", []);
      ghost var before := document.arenas;
      var selectionRefs, selections := ParseSelectionSet();
      if err.None? {
        t := InlineT(conditionName, ds, selections);
        ghost var parsed := document.arenas;
        if conditionName.Some? {
          TypeConditionStable(before, parsed, condition.value, conditionName.value);
        }
        DirectiveRefsStable(before, parsed, directiveRefs, ds);
        SelectionRefsStable(before, parsed, refs, ts);
        refs' := StoreInlineFragment(condition, conditionName, directiveRefs, ds, selectionRefs, selections, refs, ts);
        GrownTransitive(before, parsed, document.arenas);
      }
    }

    /** Appends a parsed inline fragment to InlineFragments and its selection to Selections. */
    method StoreInlineFragment(
      condition: Option<Ref>, ghost conditionName: Option<string>,
      directiveRefs: seq<Ref>, ghost ds: seq<DirectiveTree>,
      selectionRefs: seq<Ref>, ghost selections: seq<SelectionTree>,
      refs: seq<Ref>, ghost ts: seq<SelectionTree>)
      returns (refs': seq<Ref>)
      requires condition.Some? == conditionName.Some?
      requires conditionName.Some? ==> DenotesTypeCondition(document.arenas, condition.value, conditionName.value)
      requires DenotesDirectiveRefs(document.arenas, directiveRefs, ds)
      requires DenotesSelectionRefs(document.arenas, selectionRefs, selections)
      requires DenotesSelectionRefs(document.arenas, refs, ts)
      modifies document`arenas
      ensures Grown(old(document.arenas), document.arenas)
      ensures DenotesSelectionRefs(document.arenas, refs', ts + [InlineT(conditionName, ds, selections)])
    {
      ghost var before := document.arenas;
      ghost var t := InlineT(conditionName, ds, selections);
      document.arenas := PushInlineFragment(document.arenas, InlineFragment(condition, directiveRefs, selectionRefs));
      if conditionName.Some? {
        TypeConditionStable(before, document.arenas, condition.value, conditionName.value);
      }
      DirectiveRefsStable(before, document.arenas, directiveRefs, ds);
      SelectionRefsStable(before, document.arenas, selectionRefs, selections);
      SelectionRefsStable(before, document.arenas, refs, ts);
      ghost var stored := document.arenas;
      refs' := AppendSelection(Selection(SelectionKindInlineFragment, |document.arenas.inlineFragments| - 1), t, refs, ts);
      GrownTransitive(before, stored, document.arenas);
    }

    // ------------------------------------------------- variable definitions

    /** parseVariableDefinitionList: `(` variable definitions `)`; each definition goes to VariableDefinitions, in order. */
    method ParseVariableDefinitionList() returns (refs: seq<Ref>, ghost ts: seq<VariableDefinitionTree>)
      requires Ready()
      modifies this, document`arenas
      ensures Reports(VariableDefinitionListAt(tokens, old(current)))
      ensures Grown(old(document.arenas), document.arenas)
      ensures VariableDefinitionListAt(tokens, old(current)).Ok? ==>
        ts == VariableDefinitionListAt(tokens, old(current)).value && DenotesVariableDefinitionRefs(document.arenas, refs, ts)
    {
      refs, ts := [], [];
      if Peek() != BracketOpen {
        Fail();
      } else {
        var _ := Read();
        refs, ts := ParseVariableDefinitionItems();
      }
    }

    /** Variable definitions after `(`, through the closing `)`. */
    method ParseVariableDefinitionItems() returns (refs: seq<Ref>, ghost ts: seq<VariableDefinitionTree>)
      requires Ready()
      modifies this, document`arenas
      ensures Reports(VariableDefinitionItemsAt(tokens, old(current)))
      ensures Grown(old(document.arenas), document.arenas)
      ensures VariableDefinitionItemsAt(tokens, old(current)).Ok? ==>
        ts == VariableDefinitionItemsAt(tokens, old(current)).value && DenotesVariableDefinitionRefs(document.arenas, refs, ts)
    {
      ghost var start := current;
      refs, ts := [], [];
      AfterNothing(VariableDefinitionItemsAt(tokens, current));
      while Peek() != BracketClose
        invariant start <= current <= |tokens| && err.None?
        invariant Grown(old(document.arenas), document.arenas)
        invariant VariableDefinitionItemsAt(tokens, start) == After(ts, VariableDefinitionItemsAt(tokens, current))
        invariant DenotesVariableDefinitionRefs(document.arenas, refs, ts)
        decreases |tokens| - current
      {
        VariableDefinitionItemsStep(tokens, current);
        ghost var before := document.arenas;
        ghost var t;
        refs, t := ParseVariableDefinition(refs, ts);
        GrownTransitive(old(document.arenas), before, document.arenas);
        if err.Some? {
          return;
        }
        AfterAfter(ts, [t], VariableDefinitionItemsAt(tokens, current));
        ts := ts + [t];
      }
      var _ := Read();
    }

    /** One variable definition: `$name` (the name goes to VariableValues), `:`, then the rest. */
    method ParseVariableDefinition(refs: seq<Ref>, ghost ts: seq<VariableDefinitionTree>) returns (refs': seq<Ref>, ghost t: VariableDefinitionTree)
      requires Ready()
      requires DenotesVariableDefinitionRefs(document.arenas, refs, ts)
      modifies this, document`arenas
      ensures Reports(VariableDefinitionAt(tokens, old(current)))
      ensures Grown(old(document.arenas), document.arenas)
      ensures VariableDefinitionAt(tokens, old(current)).Ok? ==>
        t == VariableDefinitionAt(tokens, old(current)).value && DenotesVariableDefinitionRefs(document.arenas, refs', ts + [t])
    {
      refs', t := refs, VariableDefinitionTree("", NamedT(""), None, []);
      if Peek() != Dollar {
        Fail();
      } else {
        ghost var before := document.arenas;
        ghost var rn := VariableNameAt(tokens, current);
        var variable, tree := ParseVariableValue();
        if err.None? {
          ghost var rc := ExpectAt(tokens, rn.next, Colon);
          assert VariableDefinitionAt(tokens, old(current))
              == if rc.Err? then Err(rc.at) else VariableDefinitionTypedAt(tokens, rc.next, rn.value);
          ghost var valued := document.arenas;
          Expect(Colon);
          assert document.arenas == valued;
          if err.None? {
            ghost var named := document.arenas;
            VariableDefinitionRefsStable(before, named, refs, ts);
            refs', t := ParseVariableDefinitionTyped(variable, VariableNameAt(tokens, old(current)).value, refs, ts);
            GrownTransitive(before, named, document.arenas);
          }
        }
      }
    }

    /** A variable definition after its `:`: the type, then the rest. */
    method ParseVariableDefinitionTyped(variable: Value, ghost name: string, refs: seq<Ref>, ghost ts: seq<VariableDefinitionTree>)
      returns (refs': seq<Ref>, ghost t: VariableDefinitionTree)
      requires Ready()
      requires DenotesValue(document.arenas, variable, VariableV(name))
      requires DenotesVariableDefinitionRefs(document.arenas, refs, ts)
      modifies this, document`arenas
      ensures Reports(VariableDefinitionTypedAt(tokens, old(current), name))
      ensures Grown(old(document.arenas), document.arenas)
      ensures VariableDefinitionTypedAt(tokens, old(current), name).Ok? ==>
        t == VariableDefinitionTypedAt(tokens, old(current), name).value && DenotesVariableDefinitionRefs(document.arenas, refs', ts + [t])
    {
      refs', t := refs, VariableDefinitionTree("", NamedT(""), None, []);
      ghost var before := document.arenas;
      var typeRef := ParseType();
      TypesGrown(before, document.arenas);
      if err.None? {
        ghost var variableType := TypeAt(tokens, old(current)).value;
        TypeParsedDenotes(document.arenas, before.types, variableType);
        ValueStable(before, document.arenas, variable, VariableV(name));
        VariableDefinitionRefsStable(before, document.arenas, refs, ts);
        ghost var typed := document.arenas;
        refs', t := FinishVariableDefinition(variable, name, typeRef, variableType, refs, ts);
        GrownTransitive(before, typed, document.arenas);
      }
    }

    /** Default value and directives of a variable definition whose type is parsed; the definition goes to VariableDefinitions. */
    method FinishVariableDefinition(variable: Value, ghost name: string, typeRef: Ref, ghost variableType: TypeTree,
                                    refs: seq<Ref>, ghost ts: seq<VariableDefinitionTree>)
      returns (refs': seq<Ref>, ghost t: VariableDefinitionTree)
      requires Ready()
      requires DenotesValue(document.arenas, variable, VariableV(name)) && DenotesType(document.arenas, typeRef, variableType)
      requires DenotesVariableDefinitionRefs(document.arenas, refs, ts)
      modifies this, document`arenas
      ensures Reports(VariableDefinitionFinishAt(tokens, old(current), name, variableType))
      ensures Grown(old(document.arenas), document.arenas)
      ensures VariableDefinitionFinishAt(tokens, old(current), name, variableType).Ok? ==>
        && t == VariableDefinitionFinishAt(tokens, old(current), name, variableType).value
        && DenotesVariableDefinitionRefs(document.arenas, refs', ts + [t])
    {
      refs', t := refs, VariableDefinitionTree("", NamedT(""), None, []);
      ghost var before := document.arenas;
      var defaultValue, dv := ParseDefaultValue();
      if err.None? {
        ghost var defaulted := document.arenas;
        var directiveRefs, ds := ParseDirectives();
        GrownTransitive(before, defaulted, document.arenas);
        if err.None? {
          t := VariableDefinitionTree(name, variableType, dv, ds);
          ghost var parsed := document.arenas;
          ValueStable(before, parsed, variable, VariableV(name));
          TypeStable(before, parsed, typeRef, variableType);
          DefaultValueStable(defaulted, parsed, defaultValue, dv);
          VariableDefinitionRefsStable(before, parsed, refs, ts);
          refs' := StoreVariableDefinition(VariableDefinition(variable.ref, typeRef, defaultValue, directiveRefs), t, refs, ts);
          GrownTransitive(before, parsed, document.arenas);
        }
      }
    }

    /** Appends a parsed variable definition to VariableDefinitions and its ref to `refs`. */
    method StoreVariableDefinition(node: VariableDefinition, ghost t: VariableDefinitionTree, refs: seq<Ref>, ghost ts: seq<VariableDefinitionTree>)
      returns (refs': seq<Ref>)
      requires DenotesVariableDefinition(document.arenas, node, t) && DenotesVariableDefinitionRefs(document.arenas, refs, ts)
      modifies document`arenas
      ensures Grown(old(document.arenas), document.arenas)
      ensures DenotesVariableDefinitionRefs(document.arenas, refs', ts + [t])
    {
      ghost var before := document.arenas;
      document.arenas := PushVariableDefinition(document.arenas, node);
      VariableDefinitionStable(before, document.arenas, node, t);
      VariableDefinitionRefsStable(before, document.arenas, refs, ts);
      VariableDefinitionRefsAppend(document.arenas, refs, ts, |document.arenas.variableDefinitions| - 1, t);
      refs' := refs + [|document.arenas.variableDefinitions| - 1];
    }

    // ----------------------------------------------------------- operations

    /** An operation definition: a bare selection set (an unnamed query), or an operation type and an optional name, then the rest. */
    method ParseOperationDefinition() returns (rn: RootNode, ghost d: DefinitionTree)
      requires Ready()
      modifies this, document`arenas
      ensures Reports(OperationDefinitionAt(tokens, old(current)))
      ensures Grown(old(document.arenas), document.arenas)
      ensures OperationDefinitionAt(tokens, old(current)).Ok? ==>
        d == OperationDefinitionAt(tokens, old(current)).value && DenotesRoot(document.arenas, rn, d)
    {
      rn, d := RootNode(NodeKindOperationDefinition, 0), OperationT(QueryOp, "", [], [], []);
      if Peek() == CurlyBracketOpen {
        rn, d := ParseOperationBody(QueryOp, "", [], []);
      } else {
        var operation, name := ParseOperationHead();
        if err.None? {
          rn, d := ParseOperationAfterName(operation, name);
        }
      }
    }

    /** The operation type, and the name when one follows. */
    method ParseOperationHead() returns (operation: OperationKind, name: string)
      requires Ready()
      modifies this
      ensures Reports(OperationHeadAt(tokens, old(current)))
      ensures OperationHeadAt(tokens, old(current)).Ok? ==> OperationHeadAt(tokens, old(current)).value == OperationHead(operation, name)
    {
      operation, name := QueryOp, "";
      var kind := OperationOf(Peek());
      if kind.None? {
        Fail();
      } else {
        var _ := Read();
        operation := kind.value;
        if IsName(Peek()) {
          var t := Read();
          name := t.literal;
        }
      }
    }

    /** An operation after its type and optional name: optional variable definitions, then the rest. */
    method ParseOperationAfterName(operation: OperationKind, name: string) returns (rn: RootNode, ghost d: DefinitionTree)
      requires Ready()
      modifies this, document`arenas
      ensures Reports(OperationAfterNameAt(tokens, old(current), operation, name))
      ensures Grown(old(document.arenas), document.arenas)
      ensures OperationAfterNameAt(tokens, old(current), operation, name).Ok? ==>
        d == OperationAfterNameAt(tokens, old(current), operation, name).value && DenotesRoot(document.arenas, rn, d)
    {
      rn, d := RootNode(NodeKindOperationDefinition, 0), OperationT(QueryOp, "", [], [], []);
      ghost var before := document.arenas;
      var variableRefs: seq<Ref> := [];
      ghost var variables: seq<VariableDefinitionTree> := [];
      if Peek() == BracketOpen {
        variableRefs, variables := ParseVariableDefinitionList();
      }
      if err.None? {
        ghost var listed := document.arenas;
        rn, d := ParseOperationBody(operation, name, variableRefs, variables);
        GrownTransitive(before, listed, document.arenas);
      }
    }

    /** An operation after its variable definitions: directives, then the selection set. */
    method ParseOperationBody(operation: OperationKind, name: string, variableRefs: seq<Ref>, ghost variables: seq<VariableDefinitionTree>)
      returns (rn: RootNode, ghost d: DefinitionTree)
      requires Ready()
      requires DenotesVariableDefinitionRefs(document.arenas, variableRefs, variables)
      modifies this, document`arenas
      ensures Reports(OperationBodyAt(tokens, old(current), operation, name, variables))
      ensures Grown(old(document.arenas), document.arenas)
      ensures OperationBodyAt(tokens, old(current), operation, name, variables).Ok? ==>
        d == OperationBodyAt(tokens, old(current), operation, name, variables).value && DenotesRoot(document.arenas, rn, d)
    {
      rn, d := RootNode(NodeKindOperationDefinition, 0), OperationT(QueryOp, "", [], [], []);
      ghost var before := document.arenas;
      var directiveRefs, ds := ParseDirectives();
      if err.None? {
        ghost var directed := document.arenas;
        var selectionRefs, selections := ParseSelectionSet();
        GrownTransitive(before, directed, document.arenas);
        if err.None? {
          ghost var parsed := document.arenas;
          VariableDefinitionRefsStable(before, parsed, variableRefs, variables);
          DirectiveRefsStable(directed, parsed, directiveRefs, ds);
          rn, d := StoreOperation(operation, name, variableRefs, variables, directiveRefs, ds, selectionRefs, selections);
          GrownTransitive(before, parsed, document.arenas);
        }
      }
    }

    /** Appends a parsed operation to OperationDefinitions; `rn` is its root node. */
    method StoreOperation(operation: OperationKind, name: string,
                          variableRefs: seq<Ref>, ghost variables: seq<VariableDefinitionTree>,
                          directiveRefs: seq<Ref>, ghost ds: seq<DirectiveTree>,
                          selectionRefs: seq<Ref>, ghost selections: seq<SelectionTree>)
      returns (rn: RootNode, ghost d: DefinitionTree)
      requires DenotesVariableDefinitionRefs(document.arenas, variableRefs, variables)
      requires DenotesDirectiveRefs(document.arenas, directiveRefs, ds)
      requires DenotesSelectionRefs(document.arenas, selectionRefs, selections)
      modifies document`arenas
      ensures Grown(old(document.arenas), document.arenas)
      ensures d == OperationT(operation, name, variables, ds, selections) && DenotesRoot(document.arenas, rn, d)
    {
      ghost var before := document.arenas;
      document.arenas := PushOperationDefinition(document.arenas,
        OperationDefinition(OperationTypeOf(operation), name, variableRefs, directiveRefs, selectionRefs));
      VariableDefinitionRefsStable(before, document.arenas, variableRefs, variables);
      DirectiveRefsStable(before, document.arenas, directiveRefs, ds);
      SelectionRefsStable(before, document.arenas, selectionRefs, selections);
      d := OperationT(operation, name, variables, ds, selections);
      rn := RootNode(NodeKindOperationDefinition, |document.arenas.operationDefinitions| - 1);
    }

    // -------------------------------------------------- fragment definitions

    /** A fragment definition: its head, with the type condition appended to Types, then the rest. */
    method ParseFragmentDefinition() returns (rn: RootNode, ghost d: DefinitionTree)
      requires Ready()
      modifies this, document`arenas
      ensures Reports(FragmentDefinitionAt(tokens, old(current)))
      ensures Grown(old(document.arenas), document.arenas)
      ensures FragmentDefinitionAt(tokens, old(current)).Ok? ==>
        d == FragmentDefinitionAt(tokens, old(current)).value && DenotesRoot(document.arenas, rn, d)
    {
      rn, d := RootNode(NodeKindFragmentDefinition, 0), FragmentT("", "", [], []);
      var name, condition := ParseFragmentHead();
      if err.None? {
        ghost var before := document.arenas;
        document.arenas := PushType(document.arenas, NamedType(condition));
        ghost var pushed := document.arenas;
        rn, d := ParseFragmentBody(name, |document.arenas.types| - 1, condition);
        GrownTransitive(before, pushed, document.arenas);
      }
    }

    /** `fragment`, a name other than `on`, `on`, and the name of the type condition. */
    method ParseFragmentHead() returns (name: string, condition: string)
      requires Ready()
      modifies this
      ensures Reports(FragmentHeadAt(tokens, old(current)))
      ensures FragmentHeadAt(tokens, old(current)).Ok? ==> FragmentHeadAt(tokens, old(current)).value == FragmentHead(name, condition)
    {
      name, condition := "", "";
      if Peek() != Fragment {
        Fail();
      } else {
        var _ := Read();
        if Peek() == On || !IsName(Peek()) {
          Fail();
        } else {
          var n := Read();
          name := n.literal;
          if Peek() != On {
            Fail();
          } else {
            var _ := Read();
            if !IsName(Peek()) {
              Fail();
            } else {
              var c := Read();
              condition := c.literal;
            }
          }
        }
      }
    }

    /** A fragment definition after its type condition: directives, then the selection set. */
    method ParseFragmentBody(name: string, conditionRef: Ref, ghost condition: string) returns (rn: RootNode, ghost d: DefinitionTree)
      requires Ready()
      requires DenotesTypeCondition(document.arenas, conditionRef, condition)
      modifies this, document`arenas
      ensures Reports(FragmentBodyAt(tokens, old(current), name, condition))
      ensures Grown(old(document.arenas), document.arenas)
      ensures FragmentBodyAt(tokens, old(current), name, condition).Ok? ==>
        d == FragmentBodyAt(tokens, old(current), name, condition).value && DenotesRoot(document.arenas, rn, d)
    {
      rn, d := RootNode(NodeKindFragmentDefinition, 0), FragmentT("", "", [], []);
      ghost var before := document.arenas;
      ghost var r := FragmentBodyAt(tokens, current, name, condition);
      ghost var rd := DirectivesAt(tokens, current);
      var directiveRefs, ds := ParseDirectives();
      if err.None? {
        ghost var directed := document.arenas;
        ghost var rs := SelectionSetAt(tokens, rd.next);
        assert r == (if rs.Err? then Err(rs.at) else Ok(FragmentT(name, condition, rd.value, rs.value), rs.next));
        var selectionRefs, selections := ParseSelectionSet();
        GrownTransitive(before, directed, document.arenas);
        if err.None? {
          ghost var parsed := document.arenas;
          TypeConditionStable(before, parsed, conditionRef, condition);
          DirectiveRefsStable(directed, parsed, directiveRefs, ds);
          rn, d := StoreFragment(name, conditionRef, condition, directiveRefs, ds, selectionRefs, selections);
          GrownTransitive(before, parsed, document.arenas);
        }
      }
    }

    /** Appends a parsed fragment definition to FragmentDefinitions; `rn` is its root node. */
    method StoreFragment(name: string, conditionRef: Ref, ghost condition: string,
                         directiveRefs: seq<Ref>, ghost ds: seq<DirectiveTree>,
                         selectionRefs: seq<Ref>, ghost selections: seq<SelectionTree>)
      returns (rn: RootNode, ghost d: DefinitionTree)
      requires DenotesTypeCondition(document.arenas, conditionRef, condition)
      requires DenotesDirectiveRefs(document.arenas, directiveRefs, ds)
      requires DenotesSelectionRefs(document.arenas, selectionRefs, selections)
      modifies document`arenas
      ensures Grown(old(document.arenas), document.arenas)
      ensures d == FragmentT(name, condition, ds, selections) && DenotesRoot(document.arenas, rn, d)
    {
      ghost var before := document.arenas;
      document.arenas := PushFragmentDefinition(document.arenas, FragmentDefinition(name, conditionRef, directiveRefs, selectionRefs));
      TypeConditionStable(before, document.arenas, conditionRef, condition);
      DirectiveRefsStable(before, document.arenas, directiveRefs, ds);
      SelectionRefsStable(before, document.arenas, selectionRefs, selections);
      d := FragmentT(name, condition, ds, selections);
      rn := RootNode(NodeKindFragmentDefinition, |document.arenas.fragmentDefinitions| - 1);
    }

    // --------------------------------------------------------------- schema

    /** A schema definition, or with `extension` a schema extension: `schema`, then the rest. */
    method ParseSchemaDefinition(extension: bool) returns (rn: RootNode, ghost d: DefinitionTree)
      requires Ready()
      modifies this, document`arenas
      ensures Reports(SchemaAt(tokens, old(current), extension))
      ensures Grown(old(document.arenas), document.arenas)
      ensures SchemaAt(tokens, old(current), extension).Ok? ==>
        d == SchemaAt(tokens, old(current), extension).value && DenotesRoot(document.arenas, rn, d)
    {
      rn, d := RootNode(NodeKindSchemaDefinition, 0), SchemaT(extension, [], []);
      if Peek() != Schema {
        Fail();
      } else {
        var _ := Read();
        rn, d := ParseSchemaBody(extension);
      }
    }

    /** A schema after `schema`: directives, then the root operation type definitions. */
    method ParseSchemaBody(extension: bool) returns (rn: RootNode, ghost d: DefinitionTree)
      requires Ready()
      modifies this, document`arenas
      ensures Reports(SchemaBodyAt(tokens, old(current), extension))
      ensures Grown(old(document.arenas), document.arenas)
      ensures SchemaBodyAt(tokens, old(current), extension).Ok? ==>
        d == SchemaBodyAt(tokens, old(current), extension).value && DenotesRoot(document.arenas, rn, d)
    {
      rn, d := RootNode(NodeKindSchemaDefinition, 0), SchemaT(extension, [], []);
      ghost var before := document.arenas;
      var directiveRefs, ds := ParseDirectives();
      if err.None? {
        ghost var directed := document.arenas;
        rn, d := ParseSchemaOperations(extension, directiveRefs, ds);
        GrownTransitive(before, directed, document.arenas);
      }
    }

    /** A schema after its directives: `{`, root operation type definitions, `}`; then the schema is stored. */
    method ParseSchemaOperations(extension: bool, directiveRefs: seq<Ref>, ghost ds: seq<DirectiveTree>)
      returns (rn: RootNode, ghost d: DefinitionTree)
      requires Ready()
      requires DenotesDirectiveRefs(document.arenas, directiveRefs, ds)
      modifies this, document`arenas
      ensures Reports(SchemaOperationsAt(tokens, old(current), extension, ds))
      ensures Grown(old(document.arenas), document.arenas)
      ensures SchemaOperationsAt(tokens, old(current), extension, ds).Ok? ==>
        d == SchemaOperationsAt(tokens, old(current), extension, ds).value && DenotesRoot(document.arenas, rn, d)
    {
      rn, d := RootNode(NodeKindSchemaDefinition, 0), SchemaT(extension, [], []);
      if Peek() != CurlyBracketOpen {
        Fail();
      } else {
        var _ := Read();
        ghost var before := document.arenas;
        var operationRefs, operations := ParseRootOperations();
        if err.None? {
          ghost var parsed := document.arenas;
          DirectiveRefsStable(before, parsed, directiveRefs, ds);
          rn, d := StoreSchema(extension, directiveRefs, ds, operationRefs, operations);
          GrownTransitive(before, parsed, document.arenas);
        }
      }
    }

    /** Root operation type definitions after `{`, through the closing `}`. */
    method ParseRootOperations() returns (refs: seq<Ref>, ghost ops: seq<RootOperationTree>)
      requires Ready()
      modifies this, document`arenas
      ensures Reports(RootOperationsAt(tokens, old(current)))
      ensures Grown(old(document.arenas), document.arenas)
      ensures RootOperationsAt(tokens, old(current)).Ok? ==>
        ops == RootOperationsAt(tokens, old(current)).value && DenotesRootOperationRefs(document.arenas, refs, ops)
    {
      ghost var start := current;
      refs, ops := [], [];
      AfterNothing(RootOperationsAt(tokens, current));
      while Peek() != CurlyBracketClose
        invariant start <= current <= |tokens| && err.None?
        invariant Grown(old(document.arenas), document.arenas)
        invariant RootOperationsAt(tokens, start) == After(ops, RootOperationsAt(tokens, current))
        invariant DenotesRootOperationRefs(document.arenas, refs, ops)
        decreases |tokens| - current
      {
        RootOperationsStep(tokens, current);
        ghost var before := document.arenas;
        ghost var op;
        refs, op := ParseRootOperation(refs, ops);
        GrownTransitive(old(document.arenas), before, document.arenas);
        if err.Some? {
          return;
        }
        AfterAfter(ops, [op], RootOperationsAt(tokens, current));
        ops := ops + [op];
      }
      var _ := Read();
    }

    /** `query`, `mutation` or `subscription`, `:`, and a type name; the definition goes to RootOperationTypeDefinitions. */
    method ParseRootOperation(refs: seq<Ref>, ghost ops: seq<RootOperationTree>) returns (refs': seq<Ref>, ghost op: RootOperationTree)
      requires Ready()
      requires DenotesRootOperationRefs(document.arenas, refs, ops)
      modifies this, document`arenas
      ensures Reports(RootOperationAt(tokens, old(current)))
      ensures Grown(old(document.arenas), document.arenas)
      ensures RootOperationAt(tokens, old(current)).Ok? ==>
        op == RootOperationAt(tokens, old(current)).value && DenotesRootOperationRefs(document.arenas, refs', ops + [op])
    {
      refs', op := refs, RootOperationTree(QueryOp, "");
      var operation := OperationOf(Peek());
      if operation.None? {
        Fail();
      } else {
        var _ := Read();
        if Peek() != Colon {
          Fail();
        } else {
          var _ := Read();
          if !IsName(Peek()) {
            Fail();
          } else {
            var namedType := Read();
            op := RootOperationTree(operation.value, namedType.literal);
            ghost var before := document.arenas;
            document.arenas := PushRootOperationTypeDefinition(document.arenas,
              RootOperationTypeDefinition(OperationTypeOf(operation.value), namedType.literal));
            RootOperationRefsStable(before, document.arenas, refs, ops);
            RootOperationRefsAppend(document.arenas, refs, ops, |document.arenas.rootOperationTypeDefinitions| - 1, op);
            refs' := refs + [|document.arenas.rootOperationTypeDefinitions| - 1];
          }
        }
      }
    }

    /** Appends a parsed schema to SchemaDefinitions, or to SchemaExtensions for an extension; `rn` is its root node. */
    method StoreSchema(extension: bool, directiveRefs: seq<Ref>, ghost ds: seq<DirectiveTree>,
                       operationRefs: seq<Ref>, ghost operations: seq<RootOperationTree>)
      returns (rn: RootNode, ghost d: DefinitionTree)
      requires DenotesDirectiveRefs(document.arenas, directiveRefs, ds)
      requires DenotesRootOperationRefs(document.arenas, operationRefs, operations)
      modifies document`arenas
      ensures Grown(old(document.arenas), document.arenas)
      ensures d == SchemaT(extension, ds, operations) && DenotesRoot(document.arenas, rn, d)
    {
      ghost var before := document.arenas;
      var node := SchemaDefinition(directiveRefs, operationRefs);
      if extension {
        document.arenas := PushSchemaExtension(document.arenas, node);
        rn := RootNode(NodeKindSchemaExtension, |document.arenas.schemaExtensions| - 1);
      } else {
        document.arenas := PushSchemaDefinition(document.arenas, node);
        rn := RootNode(NodeKindSchemaDefinition, |document.arenas.schemaDefinitions| - 1);
      }
      DirectiveRefsStable(before, document.arenas, directiveRefs, ds);
      RootOperationRefsStable(before, document.arenas, operationRefs, operations);
      d := SchemaT(extension, ds, operations);
    }

    // ----------------------------------------------------- type definitions

    /** A definition keyword followed by the definition's name; `name` is the name's literal. */
    method ParseNameAfter(keyword: Keyword) returns (name: string)
      requires Ready() && keyword != Eof
      modifies this
      ensures Reports(NameAfterAt(tokens, old(current), keyword))
      ensures NameAfterAt(tokens, old(current), keyword).Ok? ==> name == NameAfterAt(tokens, old(current), keyword).value
    {
      name := "";
      if Peek() != keyword {
        Fail();
      } else {
        var _ := Read();
        if !IsName(Peek()) {
          Fail();
        } else {
          var n := Read();
          name := n.literal;
        }
      }
    }

    /** Optional `implements`, then interface names separated by `&`; each name is appended to Types as a named type. */
    method ParseImplements() returns (refs: seq<Ref>, ghost ts: seq<string>)
      requires Ready()
      modifies this, document`arenas
      ensures Reports(ImplementsAt(tokens, old(current)))
      ensures Grown(old(document.arenas), document.arenas)
      ensures ImplementsAt(tokens, old(current)).Ok? ==>
        ts == ImplementsAt(tokens, old(current)).value && DenotesNamedTypeRefs(document.arenas, refs, ts)
    {
      if Peek() == Implements {
        var _ := Read();
        refs, ts := ParseSeparatedNames(And);
      } else {
        refs, ts := [], [];
      }
    }

    /** Optional `=`, then member type names separated by `|`; each name is appended to Types as a named type. */
    method ParseUnionMembers() returns (refs: seq<Ref>, ghost ts: seq<string>)
      requires Ready()
      modifies this, document`arenas
      ensures Reports(UnionMembersAt(tokens, old(current)))
      ensures Grown(old(document.arenas), document.arenas)
      ensures UnionMembersAt(tokens, old(current)).Ok? ==>
        ts == UnionMembersAt(tokens, old(current)).value && DenotesNamedTypeRefs(document.arenas, refs, ts)
    {
      if Peek() == Equals {
        var _ := Read();
        refs, ts := ParseSeparatedNames(Pipe);
      } else {
        refs, ts := [], [];
      }
    }

    /** Optional `{`, enum value definitions, `}`. */
    method ParseEnumValuesDefinition() returns (refs: seq<Ref>, ghost ts: seq<EnumValueTree>)
      requires Ready()
      modifies this, document`arenas
      ensures Reports(EnumValuesDefinitionAt(tokens, old(current)))
      ensures Grown(old(document.arenas), document.arenas)
      ensures EnumValuesDefinitionAt(tokens, old(current)).Ok? ==>
        ts == EnumValuesDefinitionAt(tokens, old(current)).value && DenotesEnumValueRefs(document.arenas, refs, ts)
    {
      if Peek() == CurlyBracketOpen {
        var _ := Read();
        refs, ts := ParseEnumValueDefinitions();
      } else {
        refs, ts := [], [];
      }
    }

    /** Optional `{`, input value definitions, `}`. */
    method ParseInputFieldsDefinition() returns (refs: seq<Ref>, ghost ts: seq<InputValueTree>)
      requires Ready()
      modifies this, document`arenas
      ensures Reports(InputFieldsDefinitionAt(tokens, old(current)))
      ensures Grown(old(document.arenas), document.arenas)
      ensures InputFieldsDefinitionAt(tokens, old(current)).Ok? ==>
        ts == InputFieldsDefinitionAt(tokens, old(current)).value && DenotesInputValueRefs(document.arenas, refs, ts)
    {
      if Peek() == CurlyBracketOpen {
        var _ := Read();
        refs, ts := ParseInputValueDefinitions(CurlyBracketClose);
      } else {
        refs, ts := [], [];
      }
    }

    /** An interface type definition, or with `extension` its extension: `interface`, the name, then the rest. */
    method ParseInterfaceType(description: Description, ghost dt: DescriptionTree, extension: bool) returns (rn: RootNode, ghost d: DefinitionTree)
      requires Ready() && description == DescriptionOf(dt)
      modifies this, document`arenas
      ensures Reports(InterfaceTypeAt(tokens, old(current), dt, extension))
      ensures Grown(old(document.arenas), document.arenas)
      ensures InterfaceTypeAt(tokens, old(current), dt, extension).Ok? ==>
        d == InterfaceTypeAt(tokens, old(current), dt, extension).value && DenotesRoot(document.arenas, rn, d)
    {
      rn, d := RootNode(NodeKindInterfaceTypeDefinition, 0), ScalarT(extension, dt, "", []);
      var name := ParseNameAfter(Interface);
      if err.None? {
        rn, d := ParseInterfaceTypeBody(description, dt, extension, name);
      }
    }

    /** An interface type after its name: directives, then its fields; then the definition is stored. */
    method ParseInterfaceTypeBody(description: Description, ghost dt: DescriptionTree, extension: bool, name: string)
      returns (rn: RootNode, ghost d: DefinitionTree)
      requires Ready() && description == DescriptionOf(dt)
      modifies this, document`arenas
      ensures Reports(InterfaceTypeBodyAt(tokens, old(current), dt, extension, name))
      ensures Grown(old(document.arenas), document.arenas)
      ensures InterfaceTypeBodyAt(tokens, old(current), dt, extension, name).Ok? ==>
        d == InterfaceTypeBodyAt(tokens, old(current), dt, extension, name).value && DenotesRoot(document.arenas, rn, d)
    {
      rn, d := RootNode(NodeKindInterfaceTypeDefinition, 0), ScalarT(extension, dt, "", []);
      ghost var before := document.arenas;
      var directiveRefs, ds := ParseDirectives();
      if err.None? {
        ghost var directed := document.arenas;
        var refs, fields := ParseFieldsDefinition();
        GrownTransitive(before, directed, document.arenas);
        if err.None? {
          ghost var parsed := document.arenas;
          DirectiveRefsStable(directed, parsed, directiveRefs, ds);
          rn, d := StoreInterfaceType(description, dt, extension, name, directiveRefs, ds, refs, fields);
          GrownTransitive(before, parsed, document.arenas);
        }
      }
    }

    /** Appends an interface type to InterfaceTypeDefinitions, or to InterfaceTypeExtensions for an extension; `rn` is its root node. */
    method StoreInterfaceType(description: Description, ghost dt: DescriptionTree, extension: bool, name: string,
                         directiveRefs: seq<Ref>, ghost ds: seq<DirectiveTree>, refs: seq<Ref>, ghost fields: seq<FieldDefinitionTree>)
      returns (rn: RootNode, ghost d: DefinitionTree)
      requires description == DescriptionOf(dt)
      requires DenotesDirectiveRefs(document.arenas, directiveRefs, ds)
      requires DenotesFieldDefinitionRefs(document.arenas, refs, fields)
      modifies document`arenas
      ensures Grown(old(document.arenas), document.arenas)
      ensures d == InterfaceT(extension, dt, name, ds, fields) && DenotesRoot(document.arenas, rn, d)
    {
      ghost var before := document.arenas;
      var node := InterfaceTypeDefinition(description, name, directiveRefs, refs);
      if extension {
        document.arenas := PushInterfaceTypeExtension(document.arenas, node);
        rn := RootNode(NodeKindInterfaceTypeExtension, |document.arenas.interfaceTypeExtensions| - 1);
      } else {
        document.arenas := PushInterfaceTypeDefinition(document.arenas, node);
        rn := RootNode(NodeKindInterfaceTypeDefinition, |document.arenas.interfaceTypeDefinitions| - 1);
      }
      DirectiveRefsStable(before, document.arenas, directiveRefs, ds);
      FieldDefinitionRefsStable(before, document.arenas, refs, fields);
      d := InterfaceT(extension, dt, name, ds, fields);
    }

    /** A union type definition, or with `extension` its extension: `union`, the name, then the rest. */
    method ParseUnionType(description: Description, ghost dt: DescriptionTree, extension: bool) returns (rn: RootNode, ghost d: DefinitionTree)
      requires Ready() && description == DescriptionOf(dt)
      modifies this, document`arenas
      ensures Reports(UnionTypeAt(tokens, old(current), dt, extension))
      ensures Grown(old(document.arenas), document.arenas)
      ensures UnionTypeAt(tokens, old(current), dt, extension).Ok? ==>
        d == UnionTypeAt(tokens, old(current), dt, extension).value && DenotesRoot(document.arenas, rn, d)
    {
      rn, d := RootNode(NodeKindUnionTypeDefinition, 0), ScalarT(extension, dt, "", []);
      var name := ParseNameAfter(Union);
      if err.None? {
        rn, d := ParseUnionTypeBody(description, dt, extension, name);
      }
    }

    /** A union type after its name: directives, then its members; then the definition is stored. */
    method ParseUnionTypeBody(description: Description, ghost dt: DescriptionTree, extension: bool, name: string)
      returns (rn: RootNode, ghost d: DefinitionTree)
      requires Ready() && description == DescriptionOf(dt)
      modifies this, document`arenas
      ensures Reports(UnionTypeBodyAt(tokens, old(current), dt, extension, name))
      ensures Grown(old(document.arenas), document.arenas)
      ensures UnionTypeBodyAt(tokens, old(current), dt, extension, name).Ok? ==>
        d == UnionTypeBodyAt(tokens, old(current), dt, extension, name).value && DenotesRoot(document.arenas, rn, d)
    {
      rn, d := RootNode(NodeKindUnionTypeDefinition, 0), ScalarT(extension, dt, "", []);
      ghost var before := document.arenas;
      var directiveRefs, ds := ParseDirectives();
      if err.None? {
        ghost var directed := document.arenas;
        var refs, members := ParseUnionMembers();
        GrownTransitive(before, directed, document.arenas);
        if err.None? {
          ghost var parsed := document.arenas;
          DirectiveRefsStable(directed, parsed, directiveRefs, ds);
          rn, d := StoreUnionType(description, dt, extension, name, directiveRefs, ds, refs, members);
          GrownTransitive(before, parsed, document.arenas);
        }
      }
    }

    /** Appends a union type to UnionTypeDefinitions, or to UnionTypeExtensions for an extension; `rn` is its root node. */
    method StoreUnionType(description: Description, ghost dt: DescriptionTree, extension: bool, name: string,
                         directiveRefs: seq<Ref>, ghost ds: seq<DirectiveTree>, refs: seq<Ref>, ghost members: seq<string>)
      returns (rn: RootNode, ghost d: DefinitionTree)
      requires description == DescriptionOf(dt)
      requires DenotesDirectiveRefs(document.arenas, directiveRefs, ds)
      requires DenotesNamedTypeRefs(document.arenas, refs, members)
      modifies document`arenas
      ensures Grown(old(document.arenas), document.arenas)
      ensures d == UnionT(extension, dt, name, ds, members) && DenotesRoot(document.arenas, rn, d)
    {
      ghost var before := document.arenas;
      var node := UnionTypeDefinition(description, name, directiveRefs, refs);
      if extension {
        document.arenas := PushUnionTypeExtension(document.arenas, node);
        rn := RootNode(NodeKindUnionTypeExtension, |document.arenas.unionTypeExtensions| - 1);
      } else {
        document.arenas := PushUnionTypeDefinition(document.arenas, node);
        rn := RootNode(NodeKindUnionTypeDefinition, |document.arenas.unionTypeDefinitions| - 1);
      }
      DirectiveRefsStable(before, document.arenas, directiveRefs, ds);
      NamedTypeRefsStable(before, document.arenas, refs, members);
      d := UnionT(extension, dt, name, ds, members);
    }

    /** An enum type definition, or with `extension` its extension: `enum`, the name, then the rest. */
    method ParseEnumType(description: Description, ghost dt: DescriptionTree, extension: bool) returns (rn: RootNode, ghost d: DefinitionTree)
      requires Ready() && description == DescriptionOf(dt)
      modifies this, document`arenas
      ensures Reports(EnumTypeAt(tokens, old(current), dt, extension))
      ensures Grown(old(document.arenas), document.arenas)
      ensures EnumTypeAt(tokens, old(current), dt, extension).Ok? ==>
        d == EnumTypeAt(tokens, old(current), dt, extension).value && DenotesRoot(document.arenas, rn, d)
    {
      rn, d := RootNode(NodeKindEnumTypeDefinition, 0), ScalarT(extension, dt, "", []);
      var name := ParseNameAfter(Enum);
      if err.None? {
        rn, d := ParseEnumTypeBody(description, dt, extension, name);
      }
    }

    /** An enum type after its name: directives, then its values; then the definition is stored. */
    method ParseEnumTypeBody(description: Description, ghost dt: DescriptionTree, extension: bool, name: string)
      returns (rn: RootNode, ghost d: DefinitionTree)
      requires Ready() && description == DescriptionOf(dt)
      modifies this, document`arenas
      ensures Reports(EnumTypeBodyAt(tokens, old(current), dt, extension, name))
      ensures Grown(old(document.arenas), document.arenas)
      ensures EnumTypeBodyAt(tokens, old(current), dt, extension, name).Ok? ==>
        d == EnumTypeBodyAt(tokens, old(current), dt, extension, name).value && DenotesRoot(document.arenas, rn, d)
    {
      rn, d := RootNode(NodeKindEnumTypeDefinition, 0), ScalarT(extension, dt, "", []);
      ghost var before := document.arenas;
      var directiveRefs, ds := ParseDirectives();
      if err.None? {
        ghost var directed := document.arenas;
        var refs, values := ParseEnumValuesDefinition();
        GrownTransitive(before, directed, document.arenas);
        if err.None? {
          ghost var parsed := document.arenas;
          DirectiveRefsStable(directed, parsed, directiveRefs, ds);
          rn, d := StoreEnumType(description, dt, extension, name, directiveRefs, ds, refs, values);
          GrownTransitive(before, parsed, document.arenas);
        }
      }
    }

    /** Appends an enum type to EnumTypeDefinitions, or to EnumTypeExtensions for an extension; `rn` is its root node. */
    method StoreEnumType(description: Description, ghost dt: DescriptionTree, extension: bool, name: string,
                         directiveRefs: seq<Ref>, ghost ds: seq<DirectiveTree>, refs: seq<Ref>, ghost values: seq<EnumValueTree>)
      returns (rn: RootNode, ghost d: DefinitionTree)
      requires description == DescriptionOf(dt)
      requires DenotesDirectiveRefs(document.arenas, directiveRefs, ds)
      requires DenotesEnumValueRefs(document.arenas, refs, values)
      modifies document`arenas
      ensures Grown(old(document.arenas), document.arenas)
      ensures d == EnumT(extension, dt, name, ds, values) && DenotesRoot(document.arenas, rn, d)
    {
      ghost var before := document.arenas;
      var node := EnumTypeDefinition(description, name, directiveRefs, refs);
      if extension {
        document.arenas := PushEnumTypeExtension(document.arenas, node);
        rn := RootNode(NodeKindEnumTypeExtension, |document.arenas.enumTypeExtensions| - 1);
      } else {
        document.arenas := PushEnumTypeDefinition(document.arenas, node);
        rn := RootNode(NodeKindEnumTypeDefinition, |document.arenas.enumTypeDefinitions| - 1);
      }
      DirectiveRefsStable(before, document.arenas, directiveRefs, ds);
      EnumValueRefsStable(before, document.arenas, refs, values);
      d := EnumT(extension, dt, name, ds, values);
    }

    /** An input object type definition, or with `extension` its extension: `input`, the name, then the rest. */
    method ParseInputObjectType(description: Description, ghost dt: DescriptionTree, extension: bool) returns (rn: RootNode, ghost d: DefinitionTree)
      requires Ready() && description == DescriptionOf(dt)
      modifies this, document`arenas
      ensures Reports(InputObjectTypeAt(tokens, old(current), dt, extension))
      ensures Grown(old(document.arenas), document.arenas)
      ensures InputObjectTypeAt(tokens, old(current), dt, extension).Ok? ==>
        d == InputObjectTypeAt(tokens, old(current), dt, extension).value && DenotesRoot(document.arenas, rn, d)
    {
      rn, d := RootNode(NodeKindInputObjectTypeDefinition, 0), ScalarT(extension, dt, "", []);
      var name := ParseNameAfter(Input);
      if err.None? {
        rn, d := ParseInputObjectTypeBody(description, dt, extension, name);
      }
    }

    /** An input object type after its name: directives, then its inputFields; then the definition is stored. */
    method ParseInputObjectTypeBody(description: Description, ghost dt: DescriptionTree, extension: bool, name: string)
      returns (rn: RootNode, ghost d: DefinitionTree)
      requires Ready() && description == DescriptionOf(dt)
      modifies this, document`arenas
      ensures Reports(InputObjectTypeBodyAt(tokens, old(current), dt, extension, name))
      ensures Grown(old(document.arenas), document.arenas)
      ensures InputObjectTypeBodyAt(tokens, old(current), dt, extension, name).Ok? ==>
        d == InputObjectTypeBodyAt(tokens, old(current), dt, extension, name).value && DenotesRoot(document.arenas, rn, d)
    {
      rn, d := RootNode(NodeKindInputObjectTypeDefinition, 0), ScalarT(extension, dt, "", []);
      ghost var before := document.arenas;
      var directiveRefs, ds := ParseDirectives();
      if err.None? {
        ghost var directed := document.arenas;
        var refs, inputFields := ParseInputFieldsDefinition();
        GrownTransitive(before, directed, document.arenas);
        if err.None? {
          ghost var parsed := document.arenas;
          DirectiveRefsStable(directed, parsed, directiveRefs, ds);
          rn, d := StoreInputObjectType(description, dt, extension, name, directiveRefs, ds, refs, inputFields);
          GrownTransitive(before, parsed, document.arenas);
        }
      }
    }

    /** Appends an input object type to InputObjectTypeDefinitions, or to InputObjectTypeExtensions for an extension; `rn` is its root node. */
    method StoreInputObjectType(description: Description, ghost dt: DescriptionTree, extension: bool, name: string,
                         directiveRefs: seq<Ref>, ghost ds: seq<DirectiveTree>, refs: seq<Ref>, ghost inputFields: seq<InputValueTree>)
      returns (rn: RootNode, ghost d: DefinitionTree)
      requires description == DescriptionOf(dt)
      requires DenotesDirectiveRefs(document.arenas, directiveRefs, ds)
      requires DenotesInputValueRefs(document.arenas, refs, inputFields)
      modifies document`arenas
      ensures Grown(old(document.arenas), document.arenas)
      ensures d == InputObjectT(extension, dt, name, ds, inputFields) && DenotesRoot(document.arenas, rn, d)
    {
      ghost var before := document.arenas;
      var node := InputObjectTypeDefinition(description, name, directiveRefs, refs);
      if extension {
        document.arenas := PushInputObjectTypeExtension(document.arenas, node);
        rn := RootNode(NodeKindInputObjectTypeExtension, |document.arenas.inputObjectTypeExtensions| - 1);
      } else {
        document.arenas := PushInputObjectTypeDefinition(document.arenas, node);
        rn := RootNode(NodeKindInputObjectTypeDefinition, |document.arenas.inputObjectTypeDefinitions| - 1);
      }
      DirectiveRefsStable(before, document.arenas, directiveRefs, ds);
      InputValueRefsStable(before, document.arenas, refs, inputFields);
      d := InputObjectT(extension, dt, name, ds, inputFields);
    }

    /** An object type definition, or with `extension` its extension: `type`, the name, then the rest. */
    method ParseObjectType(description: Description, ghost dt: DescriptionTree, extension: bool) returns (rn: RootNode, ghost d: DefinitionTree)
      requires Ready() && description == DescriptionOf(dt)
      modifies this, document`arenas
      ensures Reports(ObjectTypeAt(tokens, old(current), dt, extension))
      ensures Grown(old(document.arenas), document.arenas)
      ensures ObjectTypeAt(tokens, old(current), dt, extension).Ok? ==>
        d == ObjectTypeAt(tokens, old(current), dt, extension).value && DenotesRoot(document.arenas, rn, d)
    {
      rn, d := RootNode(NodeKindObjectTypeDefinition, 0), ScalarT(extension, dt, "", []);
      var name := ParseNameAfter(Type);
      if err.None? {
        ghost var before := document.arenas;
        var interfaceRefs, interfaces := ParseImplements();
        if err.None? {
          ghost var implemented := document.arenas;
          rn, d := ParseObjectTypeBody(description, dt, extension, name, interfaceRefs, interfaces);
          GrownTransitive(before, implemented, document.arenas);
        }
      }
    }

    /** An object type after its interfaces: directives, then its fields; then the definition is stored. */
    method ParseObjectTypeBody(description: Description, ghost dt: DescriptionTree, extension: bool, name: string,
                               interfaceRefs: seq<Ref>, ghost interfaces: seq<string>)
      returns (rn: RootNode, ghost d: DefinitionTree)
      requires Ready() && description == DescriptionOf(dt)
      requires DenotesNamedTypeRefs(document.arenas, interfaceRefs, interfaces)
      modifies this, document`arenas
      ensures Reports(ObjectTypeBodyAt(tokens, old(current), dt, extension, name, interfaces))
      ensures Grown(old(document.arenas), document.arenas)
      ensures ObjectTypeBodyAt(tokens, old(current), dt, extension, name, interfaces).Ok? ==>
        d == ObjectTypeBodyAt(tokens, old(current), dt, extension, name, interfaces).value && DenotesRoot(document.arenas, rn, d)
    {
      rn, d := RootNode(NodeKindObjectTypeDefinition, 0), ScalarT(extension, dt, "", []);
      ghost var before := document.arenas;
      var directiveRefs, ds := ParseDirectives();
      if err.None? {
        ghost var directed := document.arenas;
        var fieldRefs, fields := ParseFieldsDefinition();
        GrownTransitive(before, directed, document.arenas);
        if err.None? {
          ghost var parsed := document.arenas;
          NamedTypeRefsStable(before, parsed, interfaceRefs, interfaces);
          DirectiveRefsStable(directed, parsed, directiveRefs, ds);
          rn, d := StoreObjectType(description, dt, extension, name, interfaceRefs, interfaces, directiveRefs, ds, fieldRefs, fields);
          GrownTransitive(before, parsed, document.arenas);
        }
      }
    }

    /** Appends an object type to ObjectTypeDefinitions, or to ObjectTypeExtensions for an extension; `rn` is its root node. */
    method StoreObjectType(description: Description, ghost dt: DescriptionTree, extension: bool, name: string,
                           interfaceRefs: seq<Ref>, ghost interfaces: seq<string>,
                           directiveRefs: seq<Ref>, ghost ds: seq<DirectiveTree>, fieldRefs: seq<Ref>, ghost fields: seq<FieldDefinitionTree>)
      returns (rn: RootNode, ghost d: DefinitionTree)
      requires description == DescriptionOf(dt)
      requires DenotesNamedTypeRefs(document.arenas, interfaceRefs, interfaces)
      requires DenotesDirectiveRefs(document.arenas, directiveRefs, ds)
      requires DenotesFieldDefinitionRefs(document.arenas, fieldRefs, fields)
      modifies document`arenas
      ensures Grown(old(document.arenas), document.arenas)
      ensures d == ObjectT(extension, dt, name, interfaces, ds, fields) && DenotesRoot(document.arenas, rn, d)
    {
      ghost var before := document.arenas;
      var node := ObjectTypeDefinition(description, name, interfaceRefs, directiveRefs, fieldRefs);
      if extension {
        document.arenas := PushObjectTypeExtension(document.arenas, node);
        rn := RootNode(NodeKindObjectTypeExtension, |document.arenas.objectTypeExtensions| - 1);
      } else {
        document.arenas := PushObjectTypeDefinition(document.arenas, node);
        rn := RootNode(NodeKindObjectTypeDefinition, |document.arenas.objectTypeDefinitions| - 1);
      }
      NamedTypeRefsStable(before, document.arenas, interfaceRefs, interfaces);
      DirectiveRefsStable(before, document.arenas, directiveRefs, ds);
      FieldDefinitionRefsStable(before, document.arenas, fieldRefs, fields);
      d := ObjectT(extension, dt, name, interfaces, ds, fields);
    }

    /** A scalar type definition, or with `extension` its extension: `scalar`, the name, then directives. */
    method ParseScalarType(description: Description, ghost dt: DescriptionTree, extension: bool) returns (rn: RootNode, ghost d: DefinitionTree)
      requires Ready() && description == DescriptionOf(dt)
      modifies this, document`arenas
      ensures Reports(ScalarTypeAt(tokens, old(current), dt, extension))
      ensures Grown(old(document.arenas), document.arenas)
      ensures ScalarTypeAt(tokens, old(current), dt, extension).Ok? ==>
        d == ScalarTypeAt(tokens, old(current), dt, extension).value && DenotesRoot(document.arenas, rn, d)
    {
      rn, d := RootNode(NodeKindScalarTypeDefinition, 0), ScalarT(extension, dt, "", []);
      var name := ParseNameAfter(Scalar);
      if err.None? {
        ghost var before := document.arenas;
        var directiveRefs, ds := ParseDirectives();
        if err.None? {
          ghost var directed := document.arenas;
          rn, d := StoreScalarType(description, dt, extension, name, directiveRefs, ds);
          GrownTransitive(before, directed, document.arenas);
        }
      }
    }

    /** Appends a scalar type to ScalarTypeDefinitions, or to ScalarTypeExtensions for an extension; `rn` is its root node. */
    method StoreScalarType(description: Description, ghost dt: DescriptionTree, extension: bool, name: string,
                           directiveRefs: seq<Ref>, ghost ds: seq<DirectiveTree>)
      returns (rn: RootNode, ghost d: DefinitionTree)
      requires description == DescriptionOf(dt)
      requires DenotesDirectiveRefs(document.arenas, directiveRefs, ds)
      modifies document`arenas
      ensures Grown(old(document.arenas), document.arenas)
      ensures d == ScalarT(extension, dt, name, ds) && DenotesRoot(document.arenas, rn, d)
    {
      ghost var before := document.arenas;
      var node := ScalarTypeDefinition(description, name, directiveRefs);
      if extension {
        document.arenas := PushScalarTypeExtension(document.arenas, node);
        rn := RootNode(NodeKindScalarTypeExtension, |document.arenas.scalarTypeExtensions| - 1);
      } else {
        document.arenas := PushScalarTypeDefinition(document.arenas, node);
        rn := RootNode(NodeKindScalarTypeDefinition, |document.arenas.scalarTypeDefinitions| - 1);
      }
      DirectiveRefsStable(before, document.arenas, directiveRefs, ds);
      d := ScalarT(extension, dt, name, ds);
    }

    // ------------------------------------------------ directive definitions

    /** A directive definition: `directive`, `@`, the name, then the rest. */
    method ParseDirectiveDefinition(description: Description, ghost dt: DescriptionTree) returns (rn: RootNode, ghost d: DefinitionTree)
      requires Ready() && description == DescriptionOf(dt)
      modifies this, document`arenas
      ensures Reports(DirectiveDefinitionAt(tokens, old(current), dt))
      ensures Grown(old(document.arenas), document.arenas)
      ensures DirectiveDefinitionAt(tokens, old(current), dt).Ok? ==>
        d == DirectiveDefinitionAt(tokens, old(current), dt).value && DenotesRoot(document.arenas, rn, d)
    {
      rn, d := RootNode(NodeKindDirectiveDefinition, 0), ScalarT(false, dt, "", []);
      var name := ParseDirectiveName();
      if err.None? {
        rn, d := ParseDirectiveDefinitionArguments(description, dt, name);
      }
    }

    /** `directive`, `@` and the directive's name; `name` is the name's literal. */
    method ParseDirectiveName() returns (name: string)
      requires Ready()
      modifies this
      ensures Reports(DirectiveNameAt(tokens, old(current)))
      ensures DirectiveNameAt(tokens, old(current)).Ok? ==> name == DirectiveNameAt(tokens, old(current)).value
    {
      name := "";
      if Peek() != Keyword.Directive {
        Fail();
      } else {
        var _ := Read();
        if Peek() != At {
          Fail();
        } else {
          var _ := Read();
          if !IsName(Peek()) {
            Fail();
          } else {
            var n := Read();
            name := n.literal;
          }
        }
      }
    }

    /** A directive definition after its name: arguments, `on`, locations; then the definition is stored. */
    method ParseDirectiveDefinitionArguments(description: Description, ghost dt: DescriptionTree, name: string)
      returns (rn: RootNode, ghost d: DefinitionTree)
      requires Ready() && description == DescriptionOf(dt)
      modifies this, document`arenas
      ensures Reports(DirectiveDefinitionArgumentsAt(tokens, old(current), dt, name))
      ensures Grown(old(document.arenas), document.arenas)
      ensures DirectiveDefinitionArgumentsAt(tokens, old(current), dt, name).Ok? ==>
        d == DirectiveDefinitionArgumentsAt(tokens, old(current), dt, name).value && DenotesRoot(document.arenas, rn, d)
    {
      rn, d := RootNode(NodeKindDirectiveDefinition, 0), ScalarT(false, dt, "", []);
      ghost var before := document.arenas;
      var argumentRefs, args := ParseArgumentsDefinition();
      if err.None? {
        ghost var parsed := document.arenas;
        rn, d := ParseDirectiveDefinitionLocations(description, dt, name, argumentRefs, args);
        GrownTransitive(before, parsed, document.arenas);
      }
    }

    /** A directive definition after its arguments: `on`, then the locations; then the definition is stored. */
    method ParseDirectiveDefinitionLocations(description: Description, ghost dt: DescriptionTree, name: string,
                                             argumentRefs: seq<Ref>, ghost args: seq<InputValueTree>)
      returns (rn: RootNode, ghost d: DefinitionTree)
      requires Ready() && description == DescriptionOf(dt)
      requires DenotesInputValueRefs(document.arenas, argumentRefs, args)
      modifies this, document`arenas
      ensures Reports(DirectiveDefinitionLocationsAt(tokens, old(current), dt, name, args))
      ensures Grown(old(document.arenas), document.arenas)
      ensures DirectiveDefinitionLocationsAt(tokens, old(current), dt, name, args).Ok? ==>
        d == DirectiveDefinitionLocationsAt(tokens, old(current), dt, name, args).value && DenotesRoot(document.arenas, rn, d)
    {
      rn, d := RootNode(NodeKindDirectiveDefinition, 0), ScalarT(false, dt, "", []);
      if Peek() != On {
        Fail();
      } else {
        var _ := Read();
        var locations := ParseDirectiveLocations();
        if err.None? {
          rn, d := StoreDirectiveDefinition(description, dt, name, argumentRefs, args, locations);
        }
      }
    }

    /** Appends a directive definition to DirectiveDefinitions; `rn` is its root node. */
    method StoreDirectiveDefinition(description: Description, ghost dt: DescriptionTree, name: string,
                                    argumentRefs: seq<Ref>, ghost args: seq<InputValueTree>, locations: Locations)
      returns (rn: RootNode, ghost d: DefinitionTree)
      requires description == DescriptionOf(dt)
      requires DenotesInputValueRefs(document.arenas, argumentRefs, args)
      modifies document`arenas
      ensures Grown(old(document.arenas), document.arenas)
      ensures d == DirectiveDefT(dt, name, args, locations) && DenotesRoot(document.arenas, rn, d)
    {
      ghost var before := document.arenas;
      document.arenas := PushDirectiveDefinition(document.arenas, DirectiveDefinition(description, name, argumentRefs, locations));
      InputValueRefsStable(before, document.arenas, argumentRefs, args);
      d := DirectiveDefT(dt, name, args, locations);
      rn := RootNode(NodeKindDirectiveDefinition, |document.arenas.directiveDefinitions| - 1);
    }

    // ----------------------------------------------------------- documents

    /** A type system definition or extension, chosen by its keyword; a directive definition cannot be extended. */
    method ParseTypeSystemDefinition(description: Description, ghost dt: DescriptionTree, extension: bool)
      returns (rn: RootNode, ghost d: DefinitionTree)
      requires Ready() && description == DescriptionOf(dt)
      modifies this, document`arenas
      ensures Reports(TypeSystemDefinitionAt(tokens, old(current), dt, extension))
      ensures Grown(old(document.arenas), document.arenas)
      ensures TypeSystemDefinitionAt(tokens, old(current), dt, extension).Ok? ==>
        d == TypeSystemDefinitionAt(tokens, old(current), dt, extension).value && DenotesRoot(document.arenas, rn, d)
    {
      rn, d := RootNode(NodeKindScalarTypeDefinition, 0), ScalarT(extension, dt, "", []);
      var k := Peek();
      if k == Type {
        rn, d := ParseObjectType(description, dt, extension);
      } else if k == Interface {
        rn, d := ParseInterfaceType(description, dt, extension);
      } else if k == Union {
        rn, d := ParseUnionType(description, dt, extension);
      } else if k == Enum {
        rn, d := ParseEnumType(description, dt, extension);
      } else if k == Input {
        rn, d := ParseInputObjectType(description, dt, extension);
      } else if k == Scalar {
        rn, d := ParseScalarType(description, dt, extension);
      } else if k == Keyword.Directive && !extension {
        rn, d := ParseDirectiveDefinition(description, dt);
      } else {
        Fail();
      }
    }

    /**
     * One top-level definition: a description must introduce a type system
     * definition; otherwise the first keyword chooses.
     */
    method ParseDefinition() returns (rn: RootNode, ghost d: DefinitionTree)
      requires Ready()
      modifies this, document`arenas
      ensures Reports(DefinitionAt(tokens, old(current)))
      ensures Grown(old(document.arenas), document.arenas)
      ensures DefinitionAt(tokens, old(current)).Ok? ==>
        d == DefinitionAt(tokens, old(current)).value && DenotesRoot(document.arenas, rn, d)
    {
      var description, dt := ParseDescription();
      if description.isDefined {
        rn, d := ParseTypeSystemDefinition(description, dt, false);
      } else {
        rn, d := ParseUndescribedDefinition();
      }
    }

    /** A top-level definition without a description, chosen by its first keyword. */
    method ParseUndescribedDefinition() returns (rn: RootNode, ghost d: DefinitionTree)
      requires Ready()
      modifies this, document`arenas
      ensures Reports(UndescribedDefinitionAt(tokens, old(current)))
      ensures Grown(old(document.arenas), document.arenas)
      ensures UndescribedDefinitionAt(tokens, old(current)).Ok? ==>
        d == UndescribedDefinitionAt(tokens, old(current)).value && DenotesRoot(document.arenas, rn, d)
    {
      var k := Peek();
      if k == Schema {
        rn, d := ParseSchemaDefinition(false);
      } else if k == Extend {
        var _ := Read();
        rn, d := ParseExtension();
      } else if k == Query || k == Mutation || k == Subscription || k == CurlyBracketOpen {
        rn, d := ParseOperationDefinition();
      } else if k == Fragment {
        rn, d := ParseFragmentDefinition();
      } else {
        rn, d := ParseTypeSystemDefinition(Description(false, false, ""), NoDescription, false);
      }
    }

    /** What follows `extend`: a schema extension or a type extension. */
    method ParseExtension() returns (rn: RootNode, ghost d: DefinitionTree)
      requires Ready()
      modifies this, document`arenas
      ensures Reports(ExtensionAt(tokens, old(current)))
      ensures Grown(old(document.arenas), document.arenas)
      ensures ExtensionAt(tokens, old(current)).Ok? ==>
        d == ExtensionAt(tokens, old(current)).value && DenotesRoot(document.arenas, rn, d)
    {
      if Peek() == Schema {
        rn, d := ParseSchemaDefinition(true);
      } else {
        rn, d := ParseTypeSystemDefinition(Description(false, false, ""), NoDescription, true);
      }
    }

    /** Definitions until the end of the token stream; each one's root node is appended to RootNodes. */
    method ParseDocument() returns (ghost ds: seq<DefinitionTree>)
      requires Ready()
      modifies this, document
      ensures Reports(DocumentAt(tokens, old(current)))
      ensures Grown(old(document.arenas), document.arenas)
      ensures old(document.rootNodes) <= document.rootNodes
      ensures DocumentAt(tokens, old(current)).Ok? ==>
        ds == DocumentAt(tokens, old(current)).value && DenotesRoots(document.arenas, document.rootNodes[|old(document.rootNodes)|..], ds)
    {
      ghost var start := current;
      ghost var roots: seq<RootNode> := [];
      ds := [];
      AfterNothing(DocumentAt(tokens, current));
      while Peek() != Eof
        invariant start <= current <= |tokens| && err.None?
        invariant Grown(old(document.arenas), document.arenas)
        invariant document.rootNodes == old(document.rootNodes) + roots
        invariant DocumentAt(tokens, start) == After(ds, DocumentAt(tokens, current))
        invariant DenotesRoots(document.arenas, roots, ds)
        decreases |tokens| - current
      {
        DocumentStep(tokens, current);
        ghost var before := document.arenas;
        var rn, d := ParseDefinition();
        GrownTransitive(old(document.arenas), before, document.arenas);
        if err.Some? {
          return;
        }
        RootsStable(before, document.arenas, roots, ds);
        AppendRoot(rn, d, roots, ds);
        AfterAfter(ds, [d], DocumentAt(tokens, current));
        roots, ds := roots + [rn], ds + [d];
      }
      assert ds + [] == ds;
      assert document.rootNodes[|old(document.rootNodes)|..] == roots;
    }

    /** Appends a parsed definition's root node to RootNodes. */
    method AppendRoot(rn: RootNode, ghost d: DefinitionTree, ghost roots: seq<RootNode>, ghost ds: seq<DefinitionTree>)
      requires DenotesRoot(document.arenas, rn, d) && DenotesRoots(document.arenas, roots, ds)
      modifies document`rootNodes
      ensures document.rootNodes == old(document.rootNodes) + [rn]
      ensures DenotesRoots(document.arenas, roots + [rn], ds + [d])
    {
      document.rootNodes := document.rootNodes + [rn];
    }
  }

  /**
   * Parses a whole token stream into `document`, which is reset first. It
   * fails exactly when the grammar rejects the stream, naming the same
   * token; on success RootNodes lists the definitions in order and each
   * one denotes the grammar's tree.
   */
  method Parse(tokens: seq<Token>, document: Document) returns (err: Option<ParseError>)
    modifies document
    ensures err.None? <==> DocumentAt(tokens, 0).Ok?
    ensures err.Some? ==> DocumentAt(tokens, 0).Err? && err.value.at == DocumentAt(tokens, 0).at
    ensures DocumentAt(tokens, 0).Ok? ==> DenotesRoots(document.arenas, document.rootNodes, DocumentAt(tokens, 0).value)
  {
    document.Reset();
    var parser := new Parser(tokens, document);
    ghost var ds := parser.ParseDocument();
    err := parser.err;
  }
}

/**
 * The reference definition of the parser: one function per production,
 * reading a token sequence from an index and answering either the tree it
 * denotes and the index just past it, or the index of the token at which
 * the production fails. The imperative parser is proved to agree with these
 * functions, production by production.
 */
module Grammar {
  import opened Wrappers
  import opened Tokens
  import opened DirectiveLocations
  import opened Syntax

  /** A successfully parsed tree together with the index of the next unread token. */
  datatype Parsed<+T> = Parsed(value: T, next: nat)

  /** Outcome of a production: its tree and next index, or the index of the offending token. */
  datatype Res<+T> = Ok(value: T, next: nat) | Err(at: nat) {
    predicate IsFailure() { Err? }
    function PropagateFailure<U>(): Res<U> requires Err? { Err(at) }
    function Extract(): Parsed<T> requires Ok? { Parsed(value, next) }
  }

  /** A list production's outcome with `done` put in front of the items it reads. */
  function After<T>(done: seq<T>, r: Res<seq<T>>): (r': Res<seq<T>>)
    ensures r'.Ok? <==> r.Ok?
    ensures r.Ok? ==> r'.value == done + r.value && r'.next == r.next
    ensures r.Err? ==> r'.at == r.at
  {
    match r
    case Ok(items, next) => Ok(done + items, next)
    case Err(at) => Err(at)
  }

  lemma AfterNothing<T>(r: Res<seq<T>>)
    ensures After([], r) == r
  {
    if r.Ok? {
      assert [] + r.value == r.value;
    }
  }

  lemma AfterAfter<T>(first: seq<T>, second: seq<T>, r: Res<seq<T>>)
    ensures After(first, After(second, r)) == After(first + second, r)
  {
    if r.Ok? {
      assert first + (second + r.value) == (first + second) + r.value;
    }
  }

  /** A production that reads at least one token, and whose error lies within the stream. */
  predicate Consumes<T>(ts: seq<Token>, i: nat, r: Res<T>) {
    && (r.Ok? ==> i < r.next <= |ts|)
    && (r.Err? ==> i <= r.at <= |ts|)
  }

  /** An optional production: it may read nothing. */
  predicate MayConsume<T>(ts: seq<Token>, i: nat, r: Res<T>) {
    && (r.Ok? ==> i <= r.next <= |ts|)
    && (r.Err? ==> i <= r.at <= |ts|)
  }

  // ---------------------------------------------------------------- types

  /** Type: a named or list type, optionally followed by one `!`. */
  function TypeAt(ts: seq<Token>, i: nat): (r: Res<TypeTree>)
    requires i <= |ts|
    ensures Consumes(ts, i, r)
    decreases |ts| - i, 2
  {
    var core :- CoreTypeAt(ts, i);
    BangAt(ts, core.next, core.value)
  }

  /** A Name, or `[` Type `]`. */
  function CoreTypeAt(ts: seq<Token>, i: nat): (r: Res<TypeTree>)
    requires i <= |ts|
    ensures Consumes(ts, i, r)
    ensures r.Ok? ==> !r.value.NonNullT?
    decreases |ts| - i, 1
  {
    if IsName(KindAt(ts, i)) then Ok(NamedT(LiteralAt(ts, i)), i + 1)
    else if KindAt(ts, i) == SquareBracketOpen then ListTypeAt(ts, i)
    else Err(i)
  }

  /** A list type from its `[`: Type `]` */
  function ListTypeAt(ts: seq<Token>, i: nat): (r: Res<TypeTree>)
    requires i < |ts|
    ensures Consumes(ts, i, r)
    ensures r.Ok? ==> r.value.ListT?
    decreases |ts| - i, 0
  {
    var inner :- TypeAt(ts, i + 1);
    ListCloseAt(ts, inner.next, inner.value)
  }

  /** The `]` that closes a list type around `inner`. */
  function ListCloseAt(ts: seq<Token>, j: nat, inner: TypeTree): (r: Res<TypeTree>)
    requires 0 < j <= |ts|
    ensures Consumes(ts, j - 1, r)
    ensures r.Ok? ==> r.value == ListT(inner) && r.next == j + 1
  {
    if KindAt(ts, j) == SquareBracketClose then Ok(ListT(inner), j + 1) else Err(j)
  }

  /** The optional `!` after a named or list type; a second `!` is an error. */
  function BangAt(ts: seq<Token>, j: nat, t: TypeTree): (r: Res<TypeTree>)
    requires 0 < j <= |ts|
    ensures Consumes(ts, j - 1, r)
    ensures r.Ok? ==> !t.NonNullT? ==> !r.value.NonNullT? || r.value.ofType == t
    ensures KindAt(ts, j) == Bang && KindAt(ts, j + 1) == Bang ==> r == Err(j + 1)
  {
    if KindAt(ts, j) != Bang then Ok(t, j)
    else if KindAt(ts, j + 1) == Bang then Err(j + 1)
    else Ok(NonNullT(t), j + 1)
  }

  // --------------------------------------------------------------- values

  /** A `$` immediately followed by a Name; the name is kept without the `$`. */
  function VariableNameAt(ts: seq<Token>, i: nat): (r: Res<string>)
    requires i <= |ts|
    ensures Consumes(ts, i, r)
    ensures r.Ok? ==> r.next == i + 2 && r.value == LiteralAt(ts, i + 1)
  {
    if KindAt(ts, i) != Dollar then Err(i)
    else if IsName(KindAt(ts, i + 1)) && !SpacedAt(ts, i + 1) then Ok(LiteralAt(ts, i + 1), i + 2)
    else Err(i + 1)
  }

  /** A `-` immediately followed by an integer or float; the sign becomes a flag. */
  function NegativeNumberAt(ts: seq<Token>, i: nat): (r: Res<ValueTree>)
    requires i <= |ts|
    requires KindAt(ts, i) == Sub
    ensures Consumes(ts, i, r)
    ensures r.Ok? ==> r.next == i + 2 && !SpacedAt(ts, i + 1)
    ensures r.Ok? ==> r.value == IntV(true, LiteralAt(ts, i + 1)) || r.value == FloatV(true, LiteralAt(ts, i + 1))
  {
    if KindAt(ts, i + 1) == Integer && !SpacedAt(ts, i + 1) then Ok(IntV(true, LiteralAt(ts, i + 1)), i + 2)
    else if KindAt(ts, i + 1) == Float && !SpacedAt(ts, i + 1) then Ok(FloatV(true, LiteralAt(ts, i + 1)), i + 2)
    else Err(i + 1)
  }

  /** Value: variable, number, string, boolean, null, enum value, list or object. */
  function ValueAt(ts: seq<Token>, i: nat): (r: Res<ValueTree>)
    requires i <= |ts|
    ensures Consumes(ts, i, r)
    decreases |ts| - i, 0
  {
    var k := KindAt(ts, i);
    if k == SquareBracketOpen then
      var items :- ListItemsAt(ts, i + 1);
      Ok(ListV(items.value), items.next)
    else if k == CurlyBracketOpen then
      var fields :- ObjectFieldsAt(ts, i + 1);
      Ok(ObjectV(fields.value), fields.next)
    else ScalarValueAt(ts, i)
  }

  /** Every value other than a list or an object. */
  function ScalarValueAt(ts: seq<Token>, i: nat): (r: Res<ValueTree>)
    requires i <= |ts|
    ensures Consumes(ts, i, r)
  {
    var k := KindAt(ts, i);
    if k == Dollar then
      var name :- VariableNameAt(ts, i);
      Ok(VariableV(name.value), name.next)
    else if k == Integer then Ok(IntV(false, LiteralAt(ts, i)), i + 1)
    else if k == Float then Ok(FloatV(false, LiteralAt(ts, i)), i + 1)
    else if k == Sub then NegativeNumberAt(ts, i)
    else if k == String then Ok(StringV(false, LiteralAt(ts, i)), i + 1)
    else if k == BlockString then Ok(StringV(true, LiteralAt(ts, i)), i + 1)
    else NamedValueAt(ts, i)
  }

  /** `true`, `false`, `null`, or any other name as an enum value. */
  function NamedValueAt(ts: seq<Token>, i: nat): (r: Res<ValueTree>)
    requires i <= |ts|
    ensures Consumes(ts, i, r)
  {
    var k := KindAt(ts, i);
    if k == True then Ok(BooleanV(true), i + 1)
    else if k == False then Ok(BooleanV(false), i + 1)
    else if k == Null then Ok(NullV, i + 1)
    else if IsName(k) then Ok(EnumV(LiteralAt(ts, i)), i + 1)
    else Err(i)
  }

  /** The items of a list value, up to and including its `]`. */
  function ListItemsAt(ts: seq<Token>, i: nat): (r: Res<seq<ValueTree>>)
    requires i <= |ts|
    ensures Consumes(ts, i, r)
    decreases |ts| - i, 1
  {
    if KindAt(ts, i) == SquareBracketClose then Ok([], i + 1)
    else
      var head :- ValueAt(ts, i);
      var tail :- ListItemsAt(ts, head.next);
      Ok([head.value] + tail.value, tail.next)
  }

  /** The `name: value` fields of an object value, up to and including its `}`. */
  function ObjectFieldsAt(ts: seq<Token>, i: nat): (r: Res<seq<ObjectFieldTree>>)
    requires i <= |ts|
    ensures Consumes(ts, i, r)
    decreases |ts| - i, 1
  {
    if KindAt(ts, i) == CurlyBracketClose then Ok([], i + 1)
    else if !IsName(KindAt(ts, i)) then Err(i)
    else if KindAt(ts, i + 1) != Colon then Err(i + 1)
    else
      var value :- ValueAt(ts, i + 2);
      var tail :- ObjectFieldsAt(ts, value.next);
      Ok([ObjectFieldTree(LiteralAt(ts, i), value.value)] + tail.value, tail.next)
  }

  /** One `name: value` field followed by the rest of the object's fields. */
  lemma ObjectFieldsStep(ts: seq<Token>, i: nat)
    requires i + 2 <= |ts| && KindAt(ts, i) != CurlyBracketClose && IsName(KindAt(ts, i)) && KindAt(ts, i + 1) == Colon
    ensures ValueAt(ts, i + 2).Err? ==> ObjectFieldsAt(ts, i) == Err(ValueAt(ts, i + 2).at)
    ensures ValueAt(ts, i + 2).Ok? ==>
      ObjectFieldsAt(ts, i) == After([ObjectFieldTree(LiteralAt(ts, i), ValueAt(ts, i + 2).value)], ObjectFieldsAt(ts, ValueAt(ts, i + 2).next))
  {}

  // ------------------------------------------------- arguments, directives

  /** Optional arguments `( name: value ... )`. */
  function ArgumentsAt(ts: seq<Token>, i: nat): (r: Res<seq<ArgumentTree>>)
    requires i <= |ts|
    ensures MayConsume(ts, i, r)
    ensures r.Ok? && r.next == i ==> r.value == []
  {
    if KindAt(ts, i) == BracketOpen then ArgumentItemsAt(ts, i + 1) else Ok([], i)
  }

  /** The arguments after `(`, up to and including the `)`. */
  function ArgumentItemsAt(ts: seq<Token>, i: nat): (r: Res<seq<ArgumentTree>>)
    requires i <= |ts|
    ensures Consumes(ts, i, r)
    decreases |ts| - i
  {
    if KindAt(ts, i) == BracketClose then Ok([], i + 1)
    else if !IsName(KindAt(ts, i)) then Err(i)
    else if KindAt(ts, i + 1) != Colon then Err(i + 1)
    else
      var value :- ValueAt(ts, i + 2);
      var tail :- ArgumentItemsAt(ts, value.next);
      Ok([ArgumentTree(LiteralAt(ts, i), value.value)] + tail.value, tail.next)
  }

  /** One `name: value` argument followed by the rest of the arguments. */
  lemma ArgumentItemsStep(ts: seq<Token>, i: nat)
    requires i + 2 <= |ts| && KindAt(ts, i) != BracketClose && IsName(KindAt(ts, i)) && KindAt(ts, i + 1) == Colon
    ensures ValueAt(ts, i + 2).Err? ==> ArgumentItemsAt(ts, i) == Err(ValueAt(ts, i + 2).at)
    ensures ValueAt(ts, i + 2).Ok? ==>
      ArgumentItemsAt(ts, i) == After([ArgumentTree(LiteralAt(ts, i), ValueAt(ts, i + 2).value)], ArgumentItemsAt(ts, ValueAt(ts, i + 2).next))
  {}

  /** One directive: `@` Name Arguments? */
  function DirectiveAt(ts: seq<Token>, i: nat): (r: Res<DirectiveTree>)
    requires i <= |ts|
    ensures Consumes(ts, i, r)
  {
    if KindAt(ts, i) != At then Err(i)
    else if !IsName(KindAt(ts, i + 1)) then Err(i + 1)
    else
      var args :- ArgumentsAt(ts, i + 2);
      Ok(DirectiveTree(LiteralAt(ts, i + 1), args.value), args.next)
  }

  /** Zero or more directives. */
  function DirectivesAt(ts: seq<Token>, i: nat): (r: Res<seq<DirectiveTree>>)
    requires i <= |ts|
    ensures MayConsume(ts, i, r)
    ensures r.Ok? ==> (r.next == i <==> r.value == [])
    decreases |ts| - i
  {
    if KindAt(ts, i) != At then Ok([], i)
    else
      var head :- DirectiveAt(ts, i);
      var tail :- DirectivesAt(ts, head.next);
      Ok([head.value] + tail.value, tail.next)
  }

  lemma DirectiveNamed(ts: seq<Token>, i: nat)
    requires i <= |ts| && KindAt(ts, i) == At && IsName(KindAt(ts, i + 1))
    ensures ArgumentsAt(ts, i + 2).Err? ==> DirectiveAt(ts, i) == Err(ArgumentsAt(ts, i + 2).at)
    ensures ArgumentsAt(ts, i + 2).Ok? ==>
      DirectiveAt(ts, i) == Ok(DirectiveTree(LiteralAt(ts, i + 1), ArgumentsAt(ts, i + 2).value), ArgumentsAt(ts, i + 2).next)
  {}

  lemma DirectivesStep(ts: seq<Token>, i: nat)
    requires i <= |ts| && KindAt(ts, i) == At
    ensures DirectiveAt(ts, i).Err? ==> DirectivesAt(ts, i) == Err(DirectiveAt(ts, i).at)
    ensures DirectiveAt(ts, i).Ok? ==> DirectivesAt(ts, i) == After([DirectiveAt(ts, i).value], DirectivesAt(ts, DirectiveAt(ts, i).next))
  {}

  // ------------------------------------------------- definitions' members

  /** An optional description: a string or block string token, kept raw. */
  function DescriptionAt(ts: seq<Token>, i: nat): (r: Parsed<DescriptionTree>)
    requires i <= |ts|
    ensures r.next <= |ts|
    ensures r.value.Described? <==> KindAt(ts, i) in {String, BlockString}
    ensures r.next == if r.value.Described? then i + 1 else i
    ensures r.value.Described? ==> r.value.content == LiteralAt(ts, i) && (r.value.blockString <==> KindAt(ts, i) == BlockString)
  {
    if KindAt(ts, i) == String then Parsed(Described(false, LiteralAt(ts, i)), i + 1)
    else if KindAt(ts, i) == BlockString then Parsed(Described(true, LiteralAt(ts, i)), i + 1)
    else Parsed(NoDescription, i)
  }

  /** How input values and field definitions start: a description, then the name. */
  datatype DescribedName = DescribedName(description: DescriptionTree, name: string)

  /** Description? Name */
  function DescribedNameAt(ts: seq<Token>, i: nat): (r: Res<DescribedName>)
    requires i <= |ts|
    ensures Consumes(ts, i, r)
  {
    var d := DescriptionAt(ts, i);
    if !IsName(KindAt(ts, d.next)) then Err(d.next)
    else Ok(DescribedName(d.value, LiteralAt(ts, d.next)), d.next + 1)
  }

  /** The punctuator or keyword `k`, and nothing else. */
  function ExpectAt(ts: seq<Token>, i: nat, k: Keyword): (r: Res<Keyword>)
    requires i <= |ts| && k != Eof
    ensures Consumes(ts, i, r)
    ensures r.Ok? <==> KindAt(ts, i) == k
    ensures r.Ok? ==> r.next == i + 1
    ensures r.Err? ==> r.at == i
  {
    if KindAt(ts, i) == k then Ok(k, i + 1) else Err(i)
  }

  /** An optional default value `= value`. */
  function DefaultValueAt(ts: seq<Token>, i: nat): (r: Res<Option<ValueTree>>)
    requires i <= |ts|
    ensures MayConsume(ts, i, r)
    ensures r.Ok? ==> (r.next == i <==> r.value.None?)
  {
    if KindAt(ts, i) == Equals then
      var value :- ValueAt(ts, i + 1);
      Ok(Some(value.value), value.next)
    else Ok(None, i)
  }

  /** Input value definition: Description? Name `:` Type DefaultValue? Directives? */
  function InputValueDefinitionAt(ts: seq<Token>, i: nat): (r: Res<InputValueTree>)
    requires i <= |ts|
    ensures Consumes(ts, i, r)
  {
    var h :- DescribedNameAt(ts, i);
    var colon :- ExpectAt(ts, h.next, Colon);
    InputValueTypedAt(ts, colon.next, h.value.description, h.value.name)
  }

  /** An input value definition after its `:`: Type DefaultValue? Directives? */
  function InputValueTypedAt(ts: seq<Token>, i: nat, d: DescriptionTree, name: string): (r: Res<InputValueTree>)
    requires i <= |ts|
    ensures Consumes(ts, i, r)
  {
    var t :- TypeAt(ts, i);
    InputValueFinishAt(ts, t.next, d, name, t.value)
  }

  /** An input value definition after its type: DefaultValue? Directives? */
  function InputValueFinishAt(ts: seq<Token>, i: nat, d: DescriptionTree, name: string, t: TypeTree): (r: Res<InputValueTree>)
    requires i <= |ts|
    ensures MayConsume(ts, i, r)
  {
    var dv :- DefaultValueAt(ts, i);
    var ds :- DirectivesAt(ts, dv.next);
    Ok(InputValueTree(d, name, t, dv.value, ds.value), ds.next)
  }

  /** Input value definitions up to and including the closing `)` or `}`. */
  function InputValueDefinitionsAt(ts: seq<Token>, i: nat, close: Keyword): (r: Res<seq<InputValueTree>>)
    requires i <= |ts|
    requires close == BracketClose || close == CurlyBracketClose
    ensures Consumes(ts, i, r)
    decreases |ts| - i
  {
    if KindAt(ts, i) == close then Ok([], i + 1)
    else
      var head :- InputValueDefinitionAt(ts, i);
      var tail :- InputValueDefinitionsAt(ts, head.next, close);
      Ok([head.value] + tail.value, tail.next)
  }

  lemma InputValueDefinitionsStep(ts: seq<Token>, i: nat, close: Keyword)
    requires i <= |ts| && (close == BracketClose || close == CurlyBracketClose) && KindAt(ts, i) != close
    ensures InputValueDefinitionAt(ts, i).Err? ==> InputValueDefinitionsAt(ts, i, close) == Err(InputValueDefinitionAt(ts, i).at)
    ensures InputValueDefinitionAt(ts, i).Ok? ==> InputValueDefinitionsAt(ts, i, close) == After([InputValueDefinitionAt(ts, i).value], InputValueDefinitionsAt(ts, InputValueDefinitionAt(ts, i).next, close))
  {}

  /** Optional arguments definition `( input value definitions )`. */
  function ArgumentsDefinitionAt(ts: seq<Token>, i: nat): (r: Res<seq<InputValueTree>>)
    requires i <= |ts|
    ensures MayConsume(ts, i, r)
    ensures r.Ok? && r.next == i ==> r.value == []
  {
    if KindAt(ts, i) == BracketOpen then InputValueDefinitionsAt(ts, i + 1, BracketClose) else Ok([], i)
  }

  /** Field definition: Description? Name ArgumentsDefinition? `:` Type Directives? */
  function FieldDefinitionAt(ts: seq<Token>, i: nat): (r: Res<FieldDefinitionTree>)
    requires i <= |ts|
    ensures Consumes(ts, i, r)
  {
    var h :- DescribedNameAt(ts, i);
    FieldDefinitionArgumentsAt(ts, h.next, h.value.description, h.value.name)
  }

  /** A field definition after its name: ArgumentsDefinition? `:` Type Directives? */
  function FieldDefinitionArgumentsAt(ts: seq<Token>, i: nat, d: DescriptionTree, name: string): (r: Res<FieldDefinitionTree>)
    requires i <= |ts|
    ensures Consumes(ts, i, r)
  {
    var args :- ArgumentsDefinitionAt(ts, i);
    FieldDefinitionColonAt(ts, args.next, d, name, args.value)
  }

  /** A field definition after its arguments: `:` Type Directives? */
  function FieldDefinitionColonAt(ts: seq<Token>, i: nat, d: DescriptionTree, name: string, args: seq<InputValueTree>): (r: Res<FieldDefinitionTree>)
    requires i <= |ts|
    ensures Consumes(ts, i, r)
    ensures r.Ok? ==> r.value.arguments == args
  {
    if KindAt(ts, i) != Colon then Err(i) else FieldDefinitionTypedAt(ts, i + 1, d, name, args)
  }

  /** A field definition after its `:`: Type Directives? */
  function FieldDefinitionTypedAt(ts: seq<Token>, i: nat, d: DescriptionTree, name: string, args: seq<InputValueTree>): (r: Res<FieldDefinitionTree>)
    requires i <= |ts|
    ensures Consumes(ts, i, r)
  {
    var t :- TypeAt(ts, i);
    var ds :- DirectivesAt(ts, t.next);
    Ok(FieldDefinitionTree(d, name, args, t.value, ds.value), ds.next)
  }

  /** Field definitions after `{`, up to and including the `}`. */
  function FieldDefinitionsAt(ts: seq<Token>, i: nat): (r: Res<seq<FieldDefinitionTree>>)
    requires i <= |ts|
    ensures Consumes(ts, i, r)
    decreases |ts| - i
  {
    if KindAt(ts, i) == CurlyBracketClose then Ok([], i + 1)
    else
      var head :- FieldDefinitionAt(ts, i);
      var tail :- FieldDefinitionsAt(ts, head.next);
      Ok([head.value] + tail.value, tail.next)
  }

  lemma FieldDefinitionsStep(ts: seq<Token>, i: nat)
    requires i <= |ts| && KindAt(ts, i) != CurlyBracketClose
    ensures FieldDefinitionAt(ts, i).Err? ==> FieldDefinitionsAt(ts, i) == Err(FieldDefinitionAt(ts, i).at)
    ensures FieldDefinitionAt(ts, i).Ok? ==> FieldDefinitionsAt(ts, i) == After([FieldDefinitionAt(ts, i).value], FieldDefinitionsAt(ts, FieldDefinitionAt(ts, i).next))
  {}

  /** Optional fields definition `{ field definitions }`. */
  function FieldsDefinitionAt(ts: seq<Token>, i: nat): (r: Res<seq<FieldDefinitionTree>>)
    requires i <= |ts|
    ensures MayConsume(ts, i, r)
    ensures r.Ok? && r.next == i ==> r.value == []
  {
    if KindAt(ts, i) == CurlyBracketOpen then FieldDefinitionsAt(ts, i + 1) else Ok([], i)
  }

  /** `true`, `false` and `null` cannot name an enum value. */
  predicate IsReservedEnumValue(k: Keyword) {
    k == True || k == False || k == Null
  }

  /** Enum value definition: Description? EnumValue Directives? */
  function EnumValueDefinitionAt(ts: seq<Token>, i: nat): (r: Res<EnumValueTree>)
    requires i <= |ts|
    ensures Consumes(ts, i, r)
  {
    var d := DescriptionAt(ts, i);
    EnumValueNameAt(ts, d.next, d.value)
  }

  /** An enum value after its description `d`: EnumValue Directives? */
  function EnumValueNameAt(ts: seq<Token>, j: nat, d: DescriptionTree): (r: Res<EnumValueTree>)
    requires j <= |ts|
    ensures Consumes(ts, j, r)
    ensures r.Ok? ==> r.value.description == d && r.value.name == LiteralAt(ts, j)
    ensures r.Err? && (!IsName(KindAt(ts, j)) || IsReservedEnumValue(KindAt(ts, j))) ==> r.at == j
  {
    if !IsName(KindAt(ts, j)) || IsReservedEnumValue(KindAt(ts, j)) then Err(j)
    else
      var ds :- DirectivesAt(ts, j + 1);
      Ok(EnumValueTree(d, LiteralAt(ts, j), ds.value), ds.next)
  }
  /** Enum value definitions after `{`, up to and including the `}`. */
  function EnumValueDefinitionsAt(ts: seq<Token>, i: nat): (r: Res<seq<EnumValueTree>>)
    requires i <= |ts|
    ensures Consumes(ts, i, r)
    decreases |ts| - i
  {
    if KindAt(ts, i) == CurlyBracketClose then Ok([], i + 1)
    else
      var head :- EnumValueDefinitionAt(ts, i);
      var tail :- EnumValueDefinitionsAt(ts, head.next);
      Ok([head.value] + tail.value, tail.next)
  }

  lemma EnumValueDefinitionsStep(ts: seq<Token>, i: nat)
    requires i <= |ts| && KindAt(ts, i) != CurlyBracketClose
    ensures EnumValueDefinitionAt(ts, i).Err? ==> EnumValueDefinitionsAt(ts, i) == Err(EnumValueDefinitionAt(ts, i).at)
    ensures EnumValueDefinitionAt(ts, i).Ok? ==> EnumValueDefinitionsAt(ts, i) == After([EnumValueDefinitionAt(ts, i).value], EnumValueDefinitionsAt(ts, EnumValueDefinitionAt(ts, i).next))
  {}

  // ------------------------------------------------------ separated lists

  /**
   * Names separated by `sep` (`|` for union members, `&` for implemented
   * interfaces), with an optional leading separator; at least one name.
   */
  function SeparatedNamesAt(ts: seq<Token>, i: nat, sep: Keyword): (r: Res<seq<string>>)
    requires i <= |ts|
    requires !IsName(sep) && sep != Eof
    ensures Consumes(ts, i, r)
    ensures r.Ok? ==> |r.value| >= 1
  {
    if KindAt(ts, i) == sep then NamesAfterSeparatorAt(ts, i + 1, sep) else NamesAfterSeparatorAt(ts, i, sep)
  }

  /** A Name, then, while a separator follows, another Name. */
  function NamesAfterSeparatorAt(ts: seq<Token>, i: nat, sep: Keyword): (r: Res<seq<string>>)
    requires i <= |ts|
    requires !IsName(sep) && sep != Eof
    ensures Consumes(ts, i, r)
    ensures r.Ok? ==> |r.value| >= 1 && KindAt(ts, r.next) != sep
    decreases |ts| - i
  {
    if !IsName(KindAt(ts, i)) then Err(i)
    else if KindAt(ts, i + 1) == sep then
      var tail :- NamesAfterSeparatorAt(ts, i + 2, sep);
      Ok([LiteralAt(ts, i)] + tail.value, tail.next)
    else Ok([LiteralAt(ts, i)], i + 1)
  }

  /** A locations outcome with `done` added to the locations it reads. */
  function Joined(done: Locations, r: Res<Locations>): (r': Res<Locations>)
    ensures r'.Ok? <==> r.Ok?
    ensures r.Ok? ==> r'.value == done + r.value && r'.next == r.next
    ensures r.Err? ==> r'.at == r.at
  {
    match r
    case Ok(locations, next) => Ok(done + locations, next)
    case Err(at) => Err(at)
  }

  lemma JoinedNothing(r: Res<Locations>)
    ensures Joined({}, r) == r
  {
    if r.Ok? {
      assert {} + r.value == r.value;
    }
  }

  lemma JoinedJoined(first: Locations, second: Locations, r: Res<Locations>)
    ensures Joined(first, Joined(second, r)) == Joined(first + second, r)
  {
    if r.Ok? {
      assert first + (second + r.value) == (first + second) + r.value;
    }
  }

  /** One step of a separated name list: the name at `i`, then either the rest after a separator or the end. */
  lemma NamesStep(ts: seq<Token>, i: nat, sep: Keyword)
    requires i <= |ts| && !IsName(sep) && sep != Eof && IsName(KindAt(ts, i))
    ensures KindAt(ts, i + 1) == sep ==>
      NamesAfterSeparatorAt(ts, i, sep) == After([LiteralAt(ts, i)], NamesAfterSeparatorAt(ts, i + 2, sep))
    ensures KindAt(ts, i + 1) != sep ==> NamesAfterSeparatorAt(ts, i, sep) == Ok([LiteralAt(ts, i)], i + 1)
  {}

  /** Directive locations separated by `|`, each resolved as it is read; at least one. */
  function LocationsAt(ts: seq<Token>, i: nat): (r: Res<Locations>)
    requires i <= |ts|
    ensures Consumes(ts, i, r)
    ensures r.Ok? ==> r.value != {}
  {
    if KindAt(ts, i) == Pipe then LocationsAfterSeparatorAt(ts, i + 1) else LocationsAfterSeparatorAt(ts, i)
  }

  function LocationsAfterSeparatorAt(ts: seq<Token>, i: nat): (r: Res<Locations>)
    requires i <= |ts|
    ensures Consumes(ts, i, r)
    ensures r.Ok? ==> r.value != {} && KindAt(ts, r.next) != Pipe
    decreases |ts| - i
  {
    if !IsName(KindAt(ts, i)) then Err(i)
    else match FromName(LiteralAt(ts, i))
      case None => Err(i)
      case Some(location) =>
        if KindAt(ts, i + 1) == Pipe then
          var tail :- LocationsAfterSeparatorAt(ts, i + 2);
          Ok({location} + tail.value, tail.next)
        else Ok({location}, i + 1)
  }

  /** One step of a location list: the location named at `i`, then either the rest after `|` or the end. */
  lemma LocationsStep(ts: seq<Token>, i: nat, location: Option<DirectiveLocation>)
    requires i <= |ts| && IsName(KindAt(ts, i)) && location == FromName(LiteralAt(ts, i))
    ensures location.None? ==> LocationsAfterSeparatorAt(ts, i) == Err(i)
    ensures location.Some? && KindAt(ts, i + 1) == Pipe ==>
      LocationsAfterSeparatorAt(ts, i) == Joined({location.value}, LocationsAfterSeparatorAt(ts, i + 2))
    ensures location.Some? && KindAt(ts, i + 1) != Pipe ==> LocationsAfterSeparatorAt(ts, i) == Ok({location.value}, i + 1)
  {}

  // ----------------------------------------------------------- selections

  /** Selection set: `{` Selection* `}`. */
  function SelectionSetAt(ts: seq<Token>, i: nat): (r: Res<seq<SelectionTree>>)
    requires i <= |ts|
    ensures Consumes(ts, i, r)
    decreases |ts| - i, 0
  {
    if KindAt(ts, i) != CurlyBracketOpen then Err(i) else SelectionsAt(ts, i + 1)
  }

  /** Selections after `{`, up to and including the `}`. */
  function SelectionsAt(ts: seq<Token>, i: nat): (r: Res<seq<SelectionTree>>)
    requires i <= |ts|
    ensures Consumes(ts, i, r)
    decreases |ts| - i, 3
  {
    if KindAt(ts, i) == CurlyBracketClose then Ok([], i + 1)
    else
      var head :- SelectionAt(ts, i);
      var tail :- SelectionsAt(ts, head.next);
      Ok([head.value] + tail.value, tail.next)
  }

  lemma SelectionsStep(ts: seq<Token>, i: nat)
    requires i <= |ts| && KindAt(ts, i) != CurlyBracketClose
    ensures SelectionAt(ts, i).Err? ==> SelectionsAt(ts, i) == Err(SelectionAt(ts, i).at)
    ensures SelectionAt(ts, i).Ok? ==> SelectionsAt(ts, i) == After([SelectionAt(ts, i).value], SelectionsAt(ts, SelectionAt(ts, i).next))
  {}

  /**
   * A field, or after `...` an inline fragment (when `on`, `@` or `{`
   * follows) or else a fragment spread.
   */
  function SelectionAt(ts: seq<Token>, i: nat): (r: Res<SelectionTree>)
    requires i <= |ts|
    ensures Consumes(ts, i, r)
    decreases |ts| - i, 2
  {
    if KindAt(ts, i) == Spread then
      if KindAt(ts, i + 1) in {On, At, CurlyBracketOpen} then InlineFragmentAt(ts, i + 1)
      else FragmentSpreadAt(ts, i + 1)
    else if IsName(KindAt(ts, i)) then FieldAt(ts, i)
    else Err(i)
  }

  /** A field's response key: its name, or an alias, `:` and its name. */
  datatype FieldName = FieldName(alias: Option<string>, name: string)

  /** Field: (alias `:`)? name, then the rest. */
  function FieldAt(ts: seq<Token>, i: nat): (r: Res<SelectionTree>)
    requires i <= |ts|
    ensures Consumes(ts, i, r)
    ensures r.Ok? ==> r.value.FieldT?
    decreases |ts| - i, 1
  {
    var n :- FieldNameAt(ts, i);
    FieldAfterNameAt(ts, n.next, n.value.alias, n.value.name)
  }

  /** A field's name, preceded by an alias and `:` when the second token is `:`. */
  function FieldNameAt(ts: seq<Token>, i: nat): (r: Res<FieldName>)
    requires i <= |ts|
    ensures Consumes(ts, i, r)
  {
    if !IsName(KindAt(ts, i)) then Err(i)
    else if KindAt(ts, i + 1) != Colon then Ok(FieldName(None, LiteralAt(ts, i)), i + 1)
    else if !IsName(KindAt(ts, i + 2)) then Err(i + 2)
    else Ok(FieldName(Some(LiteralAt(ts, i)), LiteralAt(ts, i + 2)), i + 3)
  }

  /** A field after its name: Arguments? Directives? SelectionSet? */
  function FieldAfterNameAt(ts: seq<Token>, i: nat, alias: Option<string>, name: string): (r: Res<SelectionTree>)
    requires i <= |ts|
    ensures MayConsume(ts, i, r)
    ensures r.Ok? ==> r.value.FieldT? && r.value.alias == alias && r.value.name == name
    decreases |ts| - i, 2
  {
    var args :- ArgumentsAt(ts, i);
    var ds :- DirectivesAt(ts, args.next);
    FieldBodyAt(ts, ds.next, alias, name, args.value, ds.value)
  }

  /** A field after its directives: an optional selection set. */
  function FieldBodyAt(ts: seq<Token>, i: nat, alias: Option<string>, name: string, args: seq<ArgumentTree>, ds: seq<DirectiveTree>)
    : (r: Res<SelectionTree>)
    requires i <= |ts|
    ensures MayConsume(ts, i, r)
    ensures r.Ok? ==> r.value.FieldT? && r.value.alias == alias && r.value.name == name
    decreases |ts| - i, 1
  {
    if KindAt(ts, i) == CurlyBracketOpen then
      var selections :- SelectionSetAt(ts, i);
      Ok(FieldT(alias, name, args, ds, Nested(selections.value)), selections.next)
    else Ok(FieldT(alias, name, args, ds, Leaf), i)
  }

  /** Fragment spread after `...`: a fragment name other than `on`, then Directives? */
  function FragmentSpreadAt(ts: seq<Token>, i: nat): (r: Res<SelectionTree>)
    requires i <= |ts|
    ensures Consumes(ts, i, r)
    ensures r.Ok? ==> r.value.SpreadT? && KindAt(ts, i) != On
  {
    if KindAt(ts, i) == On || !IsName(KindAt(ts, i)) then Err(i)
    else
      var ds :- DirectivesAt(ts, i + 1);
      Ok(SpreadT(LiteralAt(ts, i), ds.value), ds.next)
  }

  /** Inline fragment after `...`: (`on` NamedType)? Directives? SelectionSet */
  function InlineFragmentAt(ts: seq<Token>, i: nat): (r: Res<SelectionTree>)
    requires i <= |ts|
    ensures Consumes(ts, i, r)
    ensures r.Ok? ==> r.value.InlineT? && (r.value.typeCondition.Some? <==> KindAt(ts, i) == On)
    decreases |ts| - i, 3
  {
    var condition :- TypeConditionAt(ts, i);
    InlineFragmentBodyAt(ts, condition.next, condition.value)
  }

  /** An optional type condition: `on` Name. */
  function TypeConditionAt(ts: seq<Token>, i: nat): (r: Res<Option<string>>)
    requires i <= |ts|
    ensures MayConsume(ts, i, r)
    ensures r.Ok? ==> (r.value.Some? <==> KindAt(ts, i) == On)
  {
    if KindAt(ts, i) != On then Ok(None, i)
    else if !IsName(KindAt(ts, i + 1)) then Err(i + 1)
    else Ok(Some(LiteralAt(ts, i + 1)), i + 2)
  }

  /** An inline fragment after its type condition: Directives? SelectionSet */
  function InlineFragmentBodyAt(ts: seq<Token>, i: nat, condition: Option<string>): (r: Res<SelectionTree>)
    requires i <= |ts|
    ensures Consumes(ts, i, r)
    ensures r.Ok? ==> r.value.InlineT? && r.value.typeCondition == condition
    decreases |ts| - i, 2
  {
    var ds :- DirectivesAt(ts, i);
    InlineFragmentSelectionsAt(ts, ds.next, condition, ds.value)
  }

  /** An inline fragment after its directives: SelectionSet */
  function InlineFragmentSelectionsAt(ts: seq<Token>, i: nat, condition: Option<string>, ds: seq<DirectiveTree>)
    : (r: Res<SelectionTree>)
    requires i <= |ts|
    ensures Consumes(ts, i, r)
    ensures r.Ok? ==> r.value.InlineT? && r.value.typeCondition == condition
    decreases |ts| - i, 1
  {
    var selections :- SelectionSetAt(ts, i);
    Ok(InlineT(condition, ds, selections.value), selections.next)
  }

  // ------------------------------------------------ operations, fragments

  /** Variable definition: Variable `:` Type DefaultValue? Directives? */
  function VariableDefinitionAt(ts: seq<Token>, i: nat): (r: Res<VariableDefinitionTree>)
    requires i <= |ts|
    ensures Consumes(ts, i, r)
  {
    var name :- VariableNameAt(ts, i);
    var colon :- ExpectAt(ts, name.next, Colon);
    VariableDefinitionTypedAt(ts, colon.next, name.value)
  }

  /** A variable definition after its `:`: Type DefaultValue? Directives? */
  function VariableDefinitionTypedAt(ts: seq<Token>, i: nat, name: string): (r: Res<VariableDefinitionTree>)
    requires i <= |ts|
    ensures Consumes(ts, i, r)
  {
    var t :- TypeAt(ts, i);
    VariableDefinitionFinishAt(ts, t.next, name, t.value)
  }

  /** A variable definition after its type: DefaultValue? Directives? */
  function VariableDefinitionFinishAt(ts: seq<Token>, i: nat, name: string, t: TypeTree): (r: Res<VariableDefinitionTree>)
    requires i <= |ts|
    ensures MayConsume(ts, i, r)
  {
    var dv :- DefaultValueAt(ts, i);
    var ds :- DirectivesAt(ts, dv.next);
    Ok(VariableDefinitionTree(name, t, dv.value, ds.value), ds.next)
  }

  /** Variable definitions after `(`, up to and including the `)`. */
  function VariableDefinitionItemsAt(ts: seq<Token>, i: nat): (r: Res<seq<VariableDefinitionTree>>)
    requires i <= |ts|
    ensures Consumes(ts, i, r)
    decreases |ts| - i
  {
    if KindAt(ts, i) == BracketClose then Ok([], i + 1)
    else
      var head :- VariableDefinitionAt(ts, i);
      var tail :- VariableDefinitionItemsAt(ts, head.next);
      Ok([head.value] + tail.value, tail.next)
  }

  lemma VariableDefinitionItemsStep(ts: seq<Token>, i: nat)
    requires i <= |ts| && KindAt(ts, i) != BracketClose
    ensures VariableDefinitionAt(ts, i).Err? ==> VariableDefinitionItemsAt(ts, i) == Err(VariableDefinitionAt(ts, i).at)
    ensures VariableDefinitionAt(ts, i).Ok? ==> VariableDefinitionItemsAt(ts, i) == After([VariableDefinitionAt(ts, i).value], VariableDefinitionItemsAt(ts, VariableDefinitionAt(ts, i).next))
  {}

  /** Variable definition list: `(` VariableDefinition* `)`. */
  function VariableDefinitionListAt(ts: seq<Token>, i: nat): (r: Res<seq<VariableDefinitionTree>>)
    requires i <= |ts|
    ensures Consumes(ts, i, r)
  {
    if KindAt(ts, i) != BracketOpen then Err(i) else VariableDefinitionItemsAt(ts, i + 1)
  }

  /** The operation a keyword introduces, if any. */
  function OperationOf(k: Keyword): (r: Option<OperationKind>)
    ensures r.Some? <==> k in {Query, Mutation, Subscription}
  {
    match k
    case Query => Some(QueryOp)
    case Mutation => Some(MutationOp)
    case Subscription => Some(SubscriptionOp)
    case _ => None
  }

  /**
   * Operation definition: a bare selection set (an unnamed query), or
   * OperationType Name? VariableDefinitions? Directives? SelectionSet.
   */
  function OperationDefinitionAt(ts: seq<Token>, i: nat): (r: Res<DefinitionTree>)
    requires i <= |ts|
    ensures Consumes(ts, i, r)
    ensures r.Ok? ==> r.value.OperationT?
  {
    // A `{` starts no directive, so the shorthand is a body without name or variables.
    if KindAt(ts, i) == CurlyBracketOpen then OperationBodyAt(ts, i, QueryOp, "", [])
    else
      var head :- OperationHeadAt(ts, i);
      OperationAfterNameAt(ts, head.next, head.value.operation, head.value.name)
  }

  /** An operation's type and its name, empty when the operation is unnamed. */
  datatype OperationHead = OperationHead(operation: OperationKind, name: string)

  /** OperationType Name? */
  function OperationHeadAt(ts: seq<Token>, i: nat): (r: Res<OperationHead>)
    requires i <= |ts|
    ensures Consumes(ts, i, r)
    ensures r.Ok? ==> Some(r.value.operation) == OperationOf(KindAt(ts, i))
  {
    match OperationOf(KindAt(ts, i))
    case None => Err(i)
    case Some(operation) =>
      if IsName(KindAt(ts, i + 1)) then Ok(OperationHead(operation, LiteralAt(ts, i + 1)), i + 2)
      else Ok(OperationHead(operation, ""), i + 1)
  }

  /** An operation after its type and optional name: VariableDefinitions? Directives? SelectionSet */
  function OperationAfterNameAt(ts: seq<Token>, i: nat, operation: OperationKind, name: string): (r: Res<DefinitionTree>)
    requires i <= |ts|
    ensures Consumes(ts, i, r)
    ensures r.Ok? ==> r.value.OperationT?
  {
    var vars :- if KindAt(ts, i) == BracketOpen then VariableDefinitionListAt(ts, i) else Ok([], i);
    OperationBodyAt(ts, vars.next, operation, name, vars.value)
  }

  /** An operation after its variable definitions: Directives? SelectionSet */
  function OperationBodyAt(ts: seq<Token>, i: nat, operation: OperationKind, name: string, vars: seq<VariableDefinitionTree>): (r: Res<DefinitionTree>)
    requires i <= |ts|
    ensures Consumes(ts, i, r)
    ensures r.Ok? ==> r.value.OperationT?
  {
    var ds :- DirectivesAt(ts, i);
    var selections :- SelectionSetAt(ts, ds.next);
    Ok(OperationT(operation, name, vars, ds.value, selections.value), selections.next)
  }

  /** Fragment definition: `fragment` FragmentName `on` NamedType Directives? SelectionSet */
  function FragmentDefinitionAt(ts: seq<Token>, i: nat): (r: Res<DefinitionTree>)
    requires i <= |ts|
    ensures Consumes(ts, i, r)
    ensures r.Ok? ==> r.value.FragmentT?
  {
    var head :- FragmentHeadAt(ts, i);
    FragmentBodyAt(ts, head.next, head.value.name, head.value.typeCondition)
  }

  /** A fragment definition's name and the name of its type condition. */
  datatype FragmentHead = FragmentHead(name: string, typeCondition: string)

  /** `fragment` FragmentName `on` NamedType, where a fragment name is any name but `on`. */
  function FragmentHeadAt(ts: seq<Token>, i: nat): (r: Res<FragmentHead>)
    requires i <= |ts|
    ensures Consumes(ts, i, r)
    ensures r.Ok? ==> r.next == i + 4
  {
    if KindAt(ts, i) != Fragment then Err(i)
    else if KindAt(ts, i + 1) == On || !IsName(KindAt(ts, i + 1)) then Err(i + 1)
    else if KindAt(ts, i + 2) != On then Err(i + 2)
    else if !IsName(KindAt(ts, i + 3)) then Err(i + 3)
    else Ok(FragmentHead(LiteralAt(ts, i + 1), LiteralAt(ts, i + 3)), i + 4)
  }

  /** A fragment definition after its type condition: Directives? SelectionSet */
  function FragmentBodyAt(ts: seq<Token>, i: nat, name: string, condition: string): (r: Res<DefinitionTree>)
    requires i <= |ts|
    ensures Consumes(ts, i, r)
    ensures r.Ok? ==> r.value.FragmentT?
  {
    var ds :- DirectivesAt(ts, i);
    var selections :- SelectionSetAt(ts, ds.next);
    Ok(FragmentT(name, condition, ds.value, selections.value), selections.next)
  }

  // ------------------------------------------------- type system

  /** Root operation type definitions after `{`, up to and including the `}`. */
  function RootOperationsAt(ts: seq<Token>, i: nat): (r: Res<seq<RootOperationTree>>)
    requires i <= |ts|
    ensures Consumes(ts, i, r)
    decreases |ts| - i
  {
    if KindAt(ts, i) == CurlyBracketClose then Ok([], i + 1)
    else
      var head :- RootOperationAt(ts, i);
      var tail :- RootOperationsAt(ts, head.next);
      Ok([head.value] + tail.value, tail.next)
  }

  /** Root operation type definition: OperationType `:` NamedType */
  function RootOperationAt(ts: seq<Token>, i: nat): (r: Res<RootOperationTree>)
    requires i <= |ts|
    ensures Consumes(ts, i, r)
    ensures r.Ok? ==> r.next == i + 3 && Some(r.value.operation) == OperationOf(KindAt(ts, i))
  {
    match OperationOf(KindAt(ts, i))
    case None => Err(i)
    case Some(operation) =>
      if KindAt(ts, i + 1) != Colon then Err(i + 1)
      else if !IsName(KindAt(ts, i + 2)) then Err(i + 2)
      else Ok(RootOperationTree(operation, LiteralAt(ts, i + 2)), i + 3)
  }

  lemma RootOperationsStep(ts: seq<Token>, i: nat)
    requires i <= |ts| && KindAt(ts, i) != CurlyBracketClose
    ensures RootOperationAt(ts, i).Err? ==> RootOperationsAt(ts, i) == Err(RootOperationAt(ts, i).at)
    ensures RootOperationAt(ts, i).Ok? ==> RootOperationsAt(ts, i) == After([RootOperationAt(ts, i).value], RootOperationsAt(ts, RootOperationAt(ts, i).next))
  {}

  /** Schema definition or extension: `schema` Directives? `{` RootOperationTypeDefinition* `}` */
  function SchemaAt(ts: seq<Token>, i: nat, extension: bool): (r: Res<DefinitionTree>)
    requires i <= |ts|
    ensures Consumes(ts, i, r)
    ensures r.Ok? ==> r.value.SchemaT? && r.value.extension == extension
  {
    if KindAt(ts, i) != Schema then Err(i) else SchemaBodyAt(ts, i + 1, extension)
  }

  /** A schema definition after `schema`: Directives? `{` RootOperationTypeDefinition* `}` */
  function SchemaBodyAt(ts: seq<Token>, i: nat, extension: bool): (r: Res<DefinitionTree>)
    requires i <= |ts|
    ensures Consumes(ts, i, r)
    ensures r.Ok? ==> r.value.SchemaT? && r.value.extension == extension
  {
    var ds :- DirectivesAt(ts, i);
    SchemaOperationsAt(ts, ds.next, extension, ds.value)
  }

  /** A schema after its directives: `{` RootOperationTypeDefinition* `}` */
  function SchemaOperationsAt(ts: seq<Token>, i: nat, extension: bool, ds: seq<DirectiveTree>): (r: Res<DefinitionTree>)
    requires i <= |ts|
    ensures Consumes(ts, i, r)
    ensures r.Ok? ==> r.value.SchemaT? && r.value.extension == extension && r.value.directives == ds
  {
    if KindAt(ts, i) != CurlyBracketOpen then Err(i)
    else
      var operations :- RootOperationsAt(ts, i + 1);
      Ok(SchemaT(extension, ds, operations.value), operations.next)
  }

  /** The Name after a definition's keyword. */
  function NameAfterAt(ts: seq<Token>, i: nat, keyword: Keyword): (r: Res<string>)
    requires i <= |ts|
    requires keyword != Eof
    ensures Consumes(ts, i, r)
    ensures r.Ok? ==> r.next == i + 2 && r.value == LiteralAt(ts, i + 1)
  {
    if KindAt(ts, i) != keyword then Err(i)
    else if !IsName(KindAt(ts, i + 1)) then Err(i + 1)
    else Ok(LiteralAt(ts, i + 1), i + 2)
  }

  /** Object type: `type` Name ImplementsInterfaces? Directives? FieldsDefinition? */
  function ObjectTypeAt(ts: seq<Token>, i: nat, d: DescriptionTree, extension: bool): (r: Res<DefinitionTree>)
    requires i <= |ts|
    ensures Consumes(ts, i, r)
    ensures r.Ok? ==> r.value.ObjectT? && r.value.extension == extension
  {
    var name :- NameAfterAt(ts, i, Type);
    var interfaces :- ImplementsAt(ts, name.next);
    ObjectTypeBodyAt(ts, interfaces.next, d, extension, name.value, interfaces.value)
  }

  /** Optional ImplementsInterfaces: `implements` `&`? Name (`&` Name)* */
  function ImplementsAt(ts: seq<Token>, i: nat): (r: Res<seq<string>>)
    requires i <= |ts|
    ensures MayConsume(ts, i, r)
    ensures r.Ok? ==> (r.value == [] <==> KindAt(ts, i) != Implements)
  {
    if KindAt(ts, i) == Implements then SeparatedNamesAt(ts, i + 1, And) else Ok([], i)
  }

  /** An object type after its interfaces: Directives? FieldsDefinition? */
  function ObjectTypeBodyAt(ts: seq<Token>, i: nat, d: DescriptionTree, extension: bool, name: string, interfaces: seq<string>): (r: Res<DefinitionTree>)
    requires i <= |ts|
    ensures MayConsume(ts, i, r)
    ensures r.Ok? ==> r.value.ObjectT? && r.value.extension == extension
  {
    var ds :- DirectivesAt(ts, i);
    var fields :- FieldsDefinitionAt(ts, ds.next);
    Ok(ObjectT(extension, d, name, interfaces, ds.value, fields.value), fields.next)
  }

  /** Interface type: `interface` Name Directives? FieldsDefinition? */
  function InterfaceTypeAt(ts: seq<Token>, i: nat, d: DescriptionTree, extension: bool): (r: Res<DefinitionTree>)
    requires i <= |ts|
    ensures Consumes(ts, i, r)
    ensures r.Ok? ==> r.value.InterfaceT? && r.value.extension == extension
  {
    var name :- NameAfterAt(ts, i, Interface);
    InterfaceTypeBodyAt(ts, name.next, d, extension, name.value)
  }

  /** An interface type after its name: Directives? FieldsDefinition? */
  function InterfaceTypeBodyAt(ts: seq<Token>, i: nat, d: DescriptionTree, extension: bool, name: string): (r: Res<DefinitionTree>)
    requires i <= |ts|
    ensures MayConsume(ts, i, r)
    ensures r.Ok? ==> r.value.InterfaceT? && r.value.extension == extension
  {
    var ds :- DirectivesAt(ts, i);
    var fields :- FieldsDefinitionAt(ts, ds.next);
    Ok(InterfaceT(extension, d, name, ds.value, fields.value), fields.next)
  }

  /** Union type: `union` Name Directives? (`=` UnionMemberTypes)? */
  function UnionTypeAt(ts: seq<Token>, i: nat, d: DescriptionTree, extension: bool): (r: Res<DefinitionTree>)
    requires i <= |ts|
    ensures Consumes(ts, i, r)
    ensures r.Ok? ==> r.value.UnionT? && r.value.extension == extension
  {
    var name :- NameAfterAt(ts, i, Union);
    UnionTypeBodyAt(ts, name.next, d, extension, name.value)
  }

  /** A union type after its name: Directives? (`=` UnionMemberTypes)? */
  function UnionTypeBodyAt(ts: seq<Token>, i: nat, d: DescriptionTree, extension: bool, name: string): (r: Res<DefinitionTree>)
    requires i <= |ts|
    ensures MayConsume(ts, i, r)
    ensures r.Ok? ==> r.value.UnionT? && r.value.extension == extension
  {
    var ds :- DirectivesAt(ts, i);
    var members :- UnionMembersAt(ts, ds.next);
    Ok(UnionT(extension, d, name, ds.value, members.value), members.next)
  }

  /** Optional union members: `=`, then names separated by `|` with an optional leading `|`. */
  function UnionMembersAt(ts: seq<Token>, i: nat): (r: Res<seq<string>>)
    requires i <= |ts|
    ensures MayConsume(ts, i, r)
  {
    if KindAt(ts, i) == Equals then SeparatedNamesAt(ts, i + 1, Pipe) else Ok([], i)
  }

  /** Enum type: `enum` Name Directives? (`{` EnumValueDefinition* `}`)? */
  function EnumTypeAt(ts: seq<Token>, i: nat, d: DescriptionTree, extension: bool): (r: Res<DefinitionTree>)
    requires i <= |ts|
    ensures Consumes(ts, i, r)
    ensures r.Ok? ==> r.value.EnumT? && r.value.extension == extension
  {
    var name :- NameAfterAt(ts, i, Enum);
    EnumTypeBodyAt(ts, name.next, d, extension, name.value)
  }

  /** An enum type after its name: Directives? EnumValuesDefinition? */
  function EnumTypeBodyAt(ts: seq<Token>, i: nat, d: DescriptionTree, extension: bool, name: string): (r: Res<DefinitionTree>)
    requires i <= |ts|
    ensures MayConsume(ts, i, r)
    ensures r.Ok? ==> r.value.EnumT? && r.value.extension == extension
  {
    var ds :- DirectivesAt(ts, i);
    var values :- EnumValuesDefinitionAt(ts, ds.next);
    Ok(EnumT(extension, d, name, ds.value, values.value), values.next)
  }

  /** Optional `{ enum value definitions }`. */
  function EnumValuesDefinitionAt(ts: seq<Token>, i: nat): (r: Res<seq<EnumValueTree>>)
    requires i <= |ts|
    ensures MayConsume(ts, i, r)
  {
    if KindAt(ts, i) == CurlyBracketOpen then EnumValueDefinitionsAt(ts, i + 1) else Ok([], i)
  }

  /** Input object type: `input` Name Directives? (`{` InputValueDefinition* `}`)? */
  function InputObjectTypeAt(ts: seq<Token>, i: nat, d: DescriptionTree, extension: bool): (r: Res<DefinitionTree>)
    requires i <= |ts|
    ensures Consumes(ts, i, r)
    ensures r.Ok? ==> r.value.InputObjectT? && r.value.extension == extension
  {
    var name :- NameAfterAt(ts, i, Input);
    InputObjectTypeBodyAt(ts, name.next, d, extension, name.value)
  }

  /** An input object type after its name: Directives? InputFieldsDefinition? */
  function InputObjectTypeBodyAt(ts: seq<Token>, i: nat, d: DescriptionTree, extension: bool, name: string): (r: Res<DefinitionTree>)
    requires i <= |ts|
    ensures MayConsume(ts, i, r)
    ensures r.Ok? ==> r.value.InputObjectT? && r.value.extension == extension
  {
    var ds :- DirectivesAt(ts, i);
    var fields :- InputFieldsDefinitionAt(ts, ds.next);
    Ok(InputObjectT(extension, d, name, ds.value, fields.value), fields.next)
  }

  /** Optional `{ input value definitions }` of an input object type. */
  function InputFieldsDefinitionAt(ts: seq<Token>, i: nat): (r: Res<seq<InputValueTree>>)
    requires i <= |ts|
    ensures MayConsume(ts, i, r)
  {
    if KindAt(ts, i) == CurlyBracketOpen then InputValueDefinitionsAt(ts, i + 1, CurlyBracketClose) else Ok([], i)
  }

  /** Scalar type: `scalar` Name Directives? */
  function ScalarTypeAt(ts: seq<Token>, i: nat, d: DescriptionTree, extension: bool): (r: Res<DefinitionTree>)
    requires i <= |ts|
    ensures Consumes(ts, i, r)
    ensures r.Ok? ==> r.value.ScalarT? && r.value.extension == extension
  {
    var name :- NameAfterAt(ts, i, Scalar);
    var ds :- DirectivesAt(ts, name.next);
    Ok(ScalarT(extension, d, name.value, ds.value), ds.next)
  }

  /** Directive definition: `directive` `@` Name ArgumentsDefinition? `on` DirectiveLocations */
  function DirectiveDefinitionAt(ts: seq<Token>, i: nat, d: DescriptionTree): (r: Res<DefinitionTree>)
    requires i <= |ts|
    ensures Consumes(ts, i, r)
    ensures r.Ok? ==> r.value.DirectiveDefT?
  {
    var name :- DirectiveNameAt(ts, i);
    DirectiveDefinitionArgumentsAt(ts, name.next, d, name.value)
  }

  /** The head of a directive definition: `directive` `@` Name. */
  function DirectiveNameAt(ts: seq<Token>, i: nat): (r: Res<string>)
    requires i <= |ts|
    ensures Consumes(ts, i, r)
    ensures r.Ok? ==> r.next == i + 3 && r.value == LiteralAt(ts, i + 2)
  {
    if KindAt(ts, i) != Directive then Err(i)
    else if KindAt(ts, i + 1) != At then Err(i + 1)
    else if !IsName(KindAt(ts, i + 2)) then Err(i + 2)
    else Ok(LiteralAt(ts, i + 2), i + 3)
  }

  /** A directive definition after its name: ArgumentsDefinition? `on` DirectiveLocations */
  function DirectiveDefinitionArgumentsAt(ts: seq<Token>, i: nat, d: DescriptionTree, name: string): (r: Res<DefinitionTree>)
    requires i <= |ts|
    ensures Consumes(ts, i, r)
    ensures r.Ok? ==> r.value.DirectiveDefT?
  {
    var args :- ArgumentsDefinitionAt(ts, i);
    DirectiveDefinitionLocationsAt(ts, args.next, d, name, args.value)
  }

  /** A directive definition after its arguments: `on` DirectiveLocations */
  function DirectiveDefinitionLocationsAt(ts: seq<Token>, i: nat, d: DescriptionTree, name: string, args: seq<InputValueTree>): (r: Res<DefinitionTree>)
    requires i <= |ts|
    ensures Consumes(ts, i, r)
    ensures r.Ok? ==> r.value.DirectiveDefT? && r.value.arguments == args
  {
    if KindAt(ts, i) != On then Err(i)
    else
      var locations :- LocationsAt(ts, i + 1);
      Ok(DirectiveDefT(d, name, args, locations.value), locations.next)
  }

  /** A type definition or, when `extension` holds, a type extension; a directive cannot be extended. */
  function TypeSystemDefinitionAt(ts: seq<Token>, i: nat, d: DescriptionTree, extension: bool): (r: Res<DefinitionTree>)
    requires i <= |ts|
    ensures Consumes(ts, i, r)
  {
    var k := KindAt(ts, i);
    if k == Type then ObjectTypeAt(ts, i, d, extension)
    else if k == Interface then InterfaceTypeAt(ts, i, d, extension)
    else if k == Union then UnionTypeAt(ts, i, d, extension)
    else if k == Enum then EnumTypeAt(ts, i, d, extension)
    else if k == Input then InputObjectTypeAt(ts, i, d, extension)
    else if k == Scalar then ScalarTypeAt(ts, i, d, extension)
    else if k == Directive && !extension then DirectiveDefinitionAt(ts, i, d)
    else Err(i)
  }

  /**
   * One top-level definition. A description must be followed by a type
   * system definition; `extend` by `schema` or a type definition keyword.
   */
  function DefinitionAt(ts: seq<Token>, i: nat): (r: Res<DefinitionTree>)
    requires i <= |ts|
    ensures Consumes(ts, i, r)
  {
    var d := DescriptionAt(ts, i);
    if d.value.Described? then TypeSystemDefinitionAt(ts, d.next, d.value, false) else UndescribedDefinitionAt(ts, i)
  }

  /** A top-level definition without a description, chosen by its first keyword. */
  function UndescribedDefinitionAt(ts: seq<Token>, i: nat): (r: Res<DefinitionTree>)
    requires i <= |ts|
    ensures Consumes(ts, i, r)
  {
    var k := KindAt(ts, i);
    if k == Schema then SchemaAt(ts, i, false)
    else if k == Extend then ExtensionAt(ts, i + 1)
    else if k == Query || k == Mutation || k == Subscription || k == CurlyBracketOpen then OperationDefinitionAt(ts, i)
    else if k == Fragment then FragmentDefinitionAt(ts, i)
    else TypeSystemDefinitionAt(ts, i, NoDescription, false)
  }

  /** What follows `extend`: a schema extension or a type extension, which carries no description. */
  function ExtensionAt(ts: seq<Token>, i: nat): (r: Res<DefinitionTree>)
    requires i <= |ts|
    ensures Consumes(ts, i, r)
  {
    if KindAt(ts, i) == Schema then SchemaAt(ts, i, true) else TypeSystemDefinitionAt(ts, i, NoDescription, true)
  }

  /** A document: definitions until the end of the token stream. */
  function DocumentAt(ts: seq<Token>, i: nat): (r: Res<seq<DefinitionTree>>)
    requires i <= |ts|
    ensures MayConsume(ts, i, r)
    ensures r.Ok? ==> KindAt(ts, r.next) == Eof
    decreases |ts| - i
  {
    if KindAt(ts, i) == Eof then Ok([], i)
    else
      var head :- DefinitionAt(ts, i);
      var tail :- DocumentAt(ts, head.next);
      Ok([head.value] + tail.value, tail.next)
  }

  lemma DocumentStep(ts: seq<Token>, i: nat)
    requires i <= |ts| && KindAt(ts, i) != Eof
    ensures DefinitionAt(ts, i).Err? ==> DocumentAt(ts, i) == Err(DefinitionAt(ts, i).at)
    ensures DefinitionAt(ts, i).Ok? ==> DocumentAt(ts, i) == After([DefinitionAt(ts, i).value], DocumentAt(ts, DefinitionAt(ts, i).next))
  {}
}

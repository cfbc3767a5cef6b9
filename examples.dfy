/**
 * The parser's test cases, stated over token streams. Each lemma fixes the
 * tokens a lexer produces for one test input and states what the grammar
 * makes of them; each method runs the Parser over a fresh Document and
 * states the arena contents the test inspects.
 */
module ParserExamples {
  import opened Wrappers
  import opened Tokens
  import opened DirectiveLocations
  import opened Syntax
  import opened Grammar
  import opened Ast
  import opened Denotation
  import opened AstParser

  /** A token that directly follows the previous one. */
  function Glued(k: Keyword, literal: string): Token {
    Token(k, literal, false)
  }

  /** A token separated from the previous one by ignored characters. */
  function Spaced(k: Keyword, literal: string): Token {
    Token(k, literal, true)
  }

  // ---------------------------------------------------------------- types

  /** `[[String!]!]!` */
  function NestedListTokens(): seq<Token> {
    [Glued(SquareBracketOpen, "["), Glued(SquareBracketOpen, "["), Glued(Ident, "String"), Glued(Bang, "!"),
     Glued(SquareBracketClose, "]"), Glued(Bang, "!"), Glued(SquareBracketClose, "]"), Glued(Bang, "!")]
  }

  const NestedListType := NonNullT(ListT(NonNullT(ListT(NonNullT(NamedT("String"))))))

  lemma NestedListTypeParses()
    ensures TypeAt(NestedListTokens(), 0) == Ok(NestedListType, 8)
  {
    var ts := NestedListTokens();
    assert TypeAt(ts, 2) == Ok(NonNullT(NamedT("String")), 4);
    assert TypeAt(ts, 1) == Ok(NonNullT(ListT(NonNullT(NamedT("String")))), 6);
  }

  /** The six nodes of `[[String!]!]!`, innermost first, each wrapper pointing at the node before it. */
  lemma NestedListTypeLayout()
    ensures TypeLayout(NestedListType, 0)
         == [NamedType("String"), NonNullType(0), ListType(1), NonNullType(2), ListType(3), NonNullType(4)]
  {}

  /** parseType on `[[String!]!]!` leaves Types[5] as NonNull of List of NonNull of List of NonNull of `String`. */
  method NestedListTypeTest() returns (types: seq<Type>, ref: Ref)
    ensures ref == 5 && |types| == 6
    ensures types[5] == NonNullType(4) && types[4] == ListType(3) && types[3] == NonNullType(2)
    ensures types[2] == ListType(1) && types[1] == NonNullType(0) && types[0] == NamedType("String")
  {
    var document := new Document();
    var parser := new Parser(NestedListTokens(), document);
    NestedListTypeParses();
    NestedListTypeLayout();
    ref := parser.ParseType();
    types := document.arenas.types;
  }

  /** parseType on `String!` leaves Types[1] as NonNull of Types[0], the named type `String`. */
  method NonNullTypeTest() returns (types: seq<Type>, ref: Ref)
    ensures ref == 1 && types == [NamedType("String"), NonNullType(0)]
  {
    var document := new Document();
    var ts := [Glued(Ident, "String"), Glued(Bang, "!")];
    var parser := new Parser(ts, document);
    assert TypeAt(ts, 0) == Ok(NonNullT(NamedT("String")), 2);
    ref := parser.ParseType();
    types := document.arenas.types;
  }

  /** parseType rejects a leading `!`, a double `!` and a leading `]`, naming the offending token. */
  lemma TypeRejections()
    ensures TypeAt([Glued(Bang, "!")], 0) == Err(0)
    ensures TypeAt([Glued(Ident, "String"), Glued(Bang, "!"), Glued(Bang, "!")], 0) == Err(2)
    ensures TypeAt([Glued(SquareBracketClose, "]"), Glued(Ident, "String")], 0) == Err(0)
  {}

  /** `[]` and `[` are list types without an element type. */
  lemma ListTypeRejections()
    ensures TypeAt([Glued(SquareBracketOpen, "["), Glued(SquareBracketClose, "]")], 0) == Err(1)
    ensures TypeAt([Glued(SquareBracketOpen, "[")], 0) == Err(1)
  {}

  /** `[String` and `[String!` are list types without the closing `]`. */
  lemma UnclosedListTypes()
    ensures TypeAt([Glued(SquareBracketOpen, "["), Glued(Ident, "String")], 0) == Err(2)
    ensures TypeAt([Glued(SquareBracketOpen, "["), Glued(Ident, "String"), Glued(Bang, "!")], 0) == Err(3)
  {}

  // --------------------------------------------------------------- values

  /** `$foo`, `$_foo` and `$foo123` are variables named without the `$`; `$ foo` and `$123` are not. */
  lemma VariableValues()
    ensures ValueAt([Glued(Dollar, "$"), Glued(Ident, "foo")], 0) == Ok(VariableV("foo"), 2)
    ensures ValueAt([Glued(Dollar, "$"), Glued(Ident, "_foo")], 0) == Ok(VariableV("_foo"), 2)
    ensures ValueAt([Glued(Dollar, "$"), Glued(Ident, "foo123")], 0) == Ok(VariableV("foo123"), 2)
    ensures ValueAt([Glued(Dollar, "$"), Spaced(Ident, "foo")], 0).Err?
    ensures ValueAt([Glued(Dollar, "$"), Glued(Integer, "123")], 0).Err?
  {}

  /** An integer keeps its digits apart from the sign; a `-` separated from the digits is an error. */
  lemma IntValues()
    ensures ValueAt([Glued(Integer, "123")], 0) == Ok(IntV(false, "123"), 1)
    ensures ValueAt([Glued(Sub, "-"), Glued(Integer, "123")], 0) == Ok(IntV(true, "123"), 2)
    ensures ValueAt([Glued(Sub, "-"), Spaced(Integer, "123")], 0) == Err(1)
  {}

  /** A float keeps its digits apart from the sign; a `-` separated from the digits is an error. */
  lemma FloatValues()
    ensures ValueAt([Glued(Float, "13.37")], 0) == Ok(FloatV(false, "13.37"), 1)
    ensures ValueAt([Glued(Sub, "-"), Glued(Float, "13.37")], 0) == Ok(FloatV(true, "13.37"), 2)
    ensures ValueAt([Glued(Sub, "-"), Spaced(Float, "13.37")], 0) == Err(1)
  {}

  /** `null` is the null value. */
  lemma NullValue()
    ensures ValueAt([Glued(Null, "null")], 0) == Ok(NullV, 1)
  {}

  /** `[1,2,"3",[4]]` */
  function ListValueTokens(): seq<Token> {
    [Glued(SquareBracketOpen, "["), Glued(Integer, "1"), Spaced(Integer, "2"), Spaced(String, "3"),
     Spaced(SquareBracketOpen, "["), Glued(Integer, "4"), Glued(SquareBracketClose, "]"), Glued(SquareBracketClose, "]")]
  }

  /** A list value keeps its items in source order, nested lists included. */
  lemma ListValueOrder()
    ensures ValueAt(ListValueTokens(), 0)
         == Ok(ListV([IntV(false, "1"), IntV(false, "2"), StringV(false, "3"), ListV([IntV(false, "4")])]), 8)
  {
    var ts := ListValueTokens();
    var four := ListV([IntV(false, "4")]);
    assert ListItemsAt(ts, 7) == Ok([], 8);
    assert ListItemsAt(ts, 6) == Ok([], 7);
    assert ScalarValueAt(ts, 5) == Ok(IntV(false, "4"), 6);
    assert ValueAt(ts, 5) == Ok(IntV(false, "4"), 6);
    assert ListItemsAt(ts, 5).value == [IntV(false, "4")];
    assert ListItemsAt(ts, 5) == Ok([IntV(false, "4")], 7);
    assert ValueAt(ts, 4) == Ok(four, 7);
    assert ListItemsAt(ts, 4).value == [four];
    assert ListItemsAt(ts, 4) == Ok([four], 8);
    assert ScalarValueAt(ts, 3) == Ok(StringV(false, "3"), 4);
    assert ValueAt(ts, 3) == Ok(StringV(false, "3"), 4);
    assert ListItemsAt(ts, 3).value == [StringV(false, "3"), four];
    assert ListItemsAt(ts, 3) == Ok([StringV(false, "3"), four], 8);
    assert ScalarValueAt(ts, 2) == Ok(IntV(false, "2"), 3);
    assert ValueAt(ts, 2) == Ok(IntV(false, "2"), 3);
    assert ListItemsAt(ts, 2).value == [IntV(false, "2"), StringV(false, "3"), four];
    assert ListItemsAt(ts, 2) == Ok([IntV(false, "2"), StringV(false, "3"), four], 8);
    assert ScalarValueAt(ts, 1) == Ok(IntV(false, "1"), 2);
    assert ValueAt(ts, 1) == Ok(IntV(false, "1"), 2);
    assert ListItemsAt(ts, 1).value == [IntV(false, "1"), IntV(false, "2"), StringV(false, "3"), four];
    assert ListItemsAt(ts, 1) == Ok([IntV(false, "1"), IntV(false, "2"), StringV(false, "3"), four], 8);
  }

  /** `{lon: 12.43, lat: -53.211, list: [1] }` */
  function ObjectValueTokens(): seq<Token> {
    [Glued(CurlyBracketOpen, "{"), Glued(Ident, "lon"), Glued(Colon, ":"), Spaced(Float, "12.43"),
     Spaced(Ident, "lat"), Glued(Colon, ":"), Spaced(Sub, "-"), Glued(Float, "53.211"),
     Spaced(Ident, "list"), Glued(Colon, ":"), Spaced(SquareBracketOpen, "["), Glued(Integer, "1"),
     Glued(SquareBracketClose, "]"), Spaced(CurlyBracketClose, "}")]
  }

  /** The last field of the object value, `list: [1] }`, is a one-item list. */
  lemma ObjectValueLastField()
    ensures ObjectFieldsAt(ObjectValueTokens(), 8) == Ok([ObjectFieldTree("list", ListV([IntV(false, "1")]))], 14)
  {
    var ts := ObjectValueTokens();
    assert ObjectFieldsAt(ts, 13) == Ok([], 14);
    assert ListItemsAt(ts, 12) == Ok([], 13);
    assert ValueAt(ts, 11) == Ok(IntV(false, "1"), 12);
    assert ListItemsAt(ts, 11).value == [IntV(false, "1")];
    assert ListItemsAt(ts, 11) == Ok([IntV(false, "1")], 13);
    assert ValueAt(ts, 10) == Ok(ListV([IntV(false, "1")]), 13);
    assert ObjectFieldsAt(ts, 8).value == [ObjectFieldTree("list", ListV([IntV(false, "1")]))];
  }

  /** The tokens that open the first two fields of the object value. */
  lemma ObjectValueShape()
    ensures |ObjectValueTokens()| == 14
    ensures KindAt(ObjectValueTokens(), 1) == Ident && KindAt(ObjectValueTokens(), 2) == Colon
    ensures KindAt(ObjectValueTokens(), 4) == Ident && KindAt(ObjectValueTokens(), 5) == Colon
    ensures LiteralAt(ObjectValueTokens(), 1) == "lon" && LiteralAt(ObjectValueTokens(), 4) == "lat"
  {}

  /** `-53.211` inside the object value is one negative float. */
  lemma NegativeFloatValue()
    ensures ValueAt(ObjectValueTokens(), 6) == Ok(FloatV(true, "53.211"), 8)
  {
    var ts := ObjectValueTokens();
    assert NegativeNumberAt(ts, 6) == Ok(FloatV(true, "53.211"), 8);
    assert ScalarValueAt(ts, 6) == Ok(FloatV(true, "53.211"), 8);
  }

  /** `12.43` inside the object value is one float. */
  lemma PositiveFloatValue()
    ensures ValueAt(ObjectValueTokens(), 3) == Ok(FloatV(false, "12.43"), 4)
  {
    assert ScalarValueAt(ObjectValueTokens(), 3) == Ok(FloatV(false, "12.43"), 4);
  }

  /** The fields after the first, `lat: -53.211, list: [1] }`. */
  lemma ObjectValueLaterFields()
    ensures ObjectFieldsAt(ObjectValueTokens(), 4)
         == Ok([ObjectFieldTree("lat", FloatV(true, "53.211")), ObjectFieldTree("list", ListV([IntV(false, "1")]))], 14)
  {
    var ts := ObjectValueTokens();
    ObjectValueShape();
    ObjectValueLastField();
    NegativeFloatValue();
    ObjectFieldsStep(ts, 4);
    assert ObjectFieldsAt(ts, 4).value
        == [ObjectFieldTree("lat", FloatV(true, "53.211")), ObjectFieldTree("list", ListV([IntV(false, "1")]))];
  }

  /** An object value keeps its fields in source order. */
  lemma ObjectValueOrder()
    ensures ValueAt(ObjectValueTokens(), 0)
         == Ok(ObjectV([ObjectFieldTree("lon", FloatV(false, "12.43")), ObjectFieldTree("lat", FloatV(true, "53.211")),
                        ObjectFieldTree("list", ListV([IntV(false, "1")]))]), 14)
  {
    var ts := ObjectValueTokens();
    var list := ObjectFieldTree("list", ListV([IntV(false, "1")]));
    var lat := ObjectFieldTree("lat", FloatV(true, "53.211"));
    ObjectValueShape();
    ObjectValueLaterFields();
    PositiveFloatValue();
    ObjectFieldsStep(ts, 1);
    assert ObjectFieldsAt(ts, 1).value == [ObjectFieldTree("lon", FloatV(false, "12.43")), lat, list];
    assert ObjectFieldsAt(ts, 1) == Ok([ObjectFieldTree("lon", FloatV(false, "12.43")), lat, list], 14);
  }

  // ------------------------------------------------- variable definitions

  /** `($devicePicSize: Int = 1 $var2: String)` */
  function VariableDefinitionTokens(): seq<Token> {
    [Glued(BracketOpen, "("), Glued(Dollar, "$"), Glued(Ident, "devicePicSize"), Glued(Colon, ":"),
     Spaced(Ident, "Int"), Spaced(Equals, "="), Spaced(Integer, "1"),
     Spaced(Dollar, "$"), Glued(Ident, "var2"), Glued(Colon, ":"), Spaced(Ident, "String"), Glued(BracketClose, ")")]
  }

  /** The second definition, `$var2: String)`: no default value. */
  lemma SecondVariableDefinition()
    ensures VariableDefinitionItemsAt(VariableDefinitionTokens(), 7)
         == Ok([VariableDefinitionTree("var2", NamedT("String"), None, [])], 12)
  {
    var ts := VariableDefinitionTokens();
    assert VariableDefinitionItemsAt(ts, 11) == Ok([], 12);
    assert TypeAt(ts, 10) == Ok(NamedT("String"), 11);
    assert VariableDefinitionTypedAt(ts, 10, "var2") == Ok(VariableDefinitionTree("var2", NamedT("String"), None, []), 11);
    assert VariableDefinitionAt(ts, 7) == Ok(VariableDefinitionTree("var2", NamedT("String"), None, []), 11);
    assert VariableDefinitionItemsAt(ts, 7).value == [VariableDefinitionTree("var2", NamedT("String"), None, [])];
  }

  /** The first definition, `$devicePicSize: Int = 1`, with its default value. */
  lemma FirstVariableDefinition()
    ensures VariableDefinitionAt(VariableDefinitionTokens(), 1)
         == Ok(VariableDefinitionTree("devicePicSize", NamedT("Int"), Some(IntV(false, "1")), []), 7)
  {
    var ts := VariableDefinitionTokens();
    var first := VariableDefinitionTree("devicePicSize", NamedT("Int"), Some(IntV(false, "1")), []);
    assert ScalarValueAt(ts, 6) == Ok(IntV(false, "1"), 7);
    assert ValueAt(ts, 6) == Ok(IntV(false, "1"), 7);
    assert DefaultValueAt(ts, 5) == Ok(Some(IntV(false, "1")), 7);
    assert VariableDefinitionFinishAt(ts, 5, "devicePicSize", NamedT("Int")) == Ok(first, 7);
    assert TypeAt(ts, 4) == Ok(NamedT("Int"), 5);
    assert VariableDefinitionTypedAt(ts, 4, "devicePicSize") == Ok(first, 7);
  }

  /** parseVariableDefinitionList reads both definitions in order, the first with its default value. */
  lemma VariableDefinitionList()
    ensures VariableDefinitionListAt(VariableDefinitionTokens(), 0)
         == Ok([VariableDefinitionTree("devicePicSize", NamedT("Int"), Some(IntV(false, "1")), []),
                VariableDefinitionTree("var2", NamedT("String"), None, [])], 12)
  {
    var ts := VariableDefinitionTokens();
    var first := VariableDefinitionTree("devicePicSize", NamedT("Int"), Some(IntV(false, "1")), []);
    var second := VariableDefinitionTree("var2", NamedT("String"), None, []);
    SecondVariableDefinition();
    FirstVariableDefinition();
    assert VariableDefinitionItemsAt(ts, 1).value == [first, second];
    assert VariableDefinitionItemsAt(ts, 1) == Ok([first, second], 12);
  }

  // ------------------------------------------------------------ documents

  /** A stream holding exactly one definition parses as a document of that one definition. */
  lemma OneDefinition(ts: seq<Token>)
    requires KindAt(ts, 0) != Eof && DefinitionAt(ts, 0).Ok? && DefinitionAt(ts, 0).next == |ts|
    ensures DocumentAt(ts, 0) == Ok([DefinitionAt(ts, 0).value], |ts|)
  {
    assert DocumentAt(ts, |ts|) == Ok([], |ts|);
    assert DocumentAt(ts, 0).value == [DefinitionAt(ts, 0).value];
  }

  /** A stream whose first definition fails is not a document. */
  lemma FirstDefinitionFails(ts: seq<Token>)
    requires KindAt(ts, 0) != Eof && DefinitionAt(ts, 0).Err?
    ensures DocumentAt(ts, 0).Err?
  {
    DocumentStep(ts, 0);
  }

  // ---------------------------------------------------------------- unions

  /** `union SearchResult = Photo | Person` */
  function UnionTokens(): seq<Token> {
    [Glued(Union, "union"), Spaced(Ident, "SearchResult"), Spaced(Equals, "="),
     Spaced(Ident, "Photo"), Spaced(Pipe, "|"), Spaced(Ident, "Person")]
  }

  const SearchResult := UnionT(false, NoDescription, "SearchResult", [], ["Photo", "Person"])

  /** A union's member types are kept in source order. */
  lemma UnionWithMembers()
    ensures DocumentAt(UnionTokens(), 0) == Ok([SearchResult], 6)
  {
    var ts := UnionTokens();
    assert NamesAfterSeparatorAt(ts, 5, Pipe) == Ok(["Person"], 6);
    assert NamesAfterSeparatorAt(ts, 3, Pipe).value == ["Photo", "Person"];
    assert UnionMembersAt(ts, 2) == Ok(["Photo", "Person"], 6);
    assert UnionTypeAt(ts, 0, NoDescription, false) == Ok(SearchResult, 6);
    assert DefinitionAt(ts, 0) == Ok(SearchResult, 6);
    OneDefinition(ts);
  }

  /** A union without `=` has no member types. */
  lemma UnionWithoutMembers()
    ensures DocumentAt([Glued(Union, "union"), Spaced(Ident, "SearchResult")], 0)
         == Ok([UnionT(false, NoDescription, "SearchResult", [], [])], 2)
  {
    var none := [Glued(Union, "union"), Spaced(Ident, "SearchResult")];
    assert DefinitionAt(none, 0) == Ok(UnionT(false, NoDescription, "SearchResult", [], []), 2);
    OneDefinition(none);
  }

  /** `= Photo |` and a bare `=` are errors. */
  lemma UnionMemberErrors()
    ensures DocumentAt([Glued(Union, "union"), Spaced(Ident, "SearchResult"), Spaced(Equals, "="),
                        Spaced(Ident, "Photo"), Spaced(Pipe, "|")], 0).Err?
    ensures DocumentAt([Glued(Union, "union"), Spaced(Ident, "SearchResult"), Spaced(Equals, "=")], 0).Err?
  {
    var dangling := [Glued(Union, "union"), Spaced(Ident, "SearchResult"), Spaced(Equals, "="),
                     Spaced(Ident, "Photo"), Spaced(Pipe, "|")];
    assert UnionMembersAt(dangling, 2) == Err(5);
    FirstDefinitionFails(dangling);
    var empty := [Glued(Union, "union"), Spaced(Ident, "SearchResult"), Spaced(Equals, "=")];
    assert UnionMembersAt(empty, 2) == Err(3);
    FirstDefinitionFails(empty);
  }

  /** parse on `union SearchResult = Photo | Person` stores a union whose two member types are the named types `Photo` and `Person`. */
  method UnionMembersTest() returns (union: UnionTypeDefinition, members: seq<Type>)
    ensures union.name == "SearchResult" && |union.unionMemberTypes| == 2
    ensures members == [NamedType("Photo"), NamedType("Person")]
  {
    var document := new Document();
    UnionWithMembers();
    var err := Parse(UnionTokens(), document);
    var root := document.rootNodes[0];
    assert DenotesRoot(document.arenas, root, SearchResult);
    union := document.arenas.unionTypeDefinitions[root.ref];
    members := [document.arenas.types[union.unionMemberTypes[0]], document.arenas.types[union.unionMemberTypes[1]]];
  }

  // ----------------------------------------------------------- implements

  /** `type Person implements & Foo & Bar {}` */
  function ImplementsTokens(): seq<Token> {
    [Glued(Type, "type"), Spaced(Ident, "Person"), Spaced(Implements, "implements"),
     Spaced(And, "&"), Spaced(Ident, "Foo"), Spaced(And, "&"), Spaced(Ident, "Bar"),
     Spaced(CurlyBracketOpen, "{"), Glued(CurlyBracketClose, "}")]
  }

  /** `implements & Foo & Bar` names `Foo` and `Bar`, in that order. */
  lemma ImplementsList()
    ensures ImplementsAt(ImplementsTokens(), 2) == Ok(["Foo", "Bar"], 7)
  {
    var ts := ImplementsTokens();
    assert NamesAfterSeparatorAt(ts, 6, And) == Ok(["Bar"], 7);
    assert NamesAfterSeparatorAt(ts, 4, And).value == ["Foo", "Bar"];
    assert NamesAfterSeparatorAt(ts, 4, And) == Ok(["Foo", "Bar"], 7);
  }

  /** A leading `&` before the first interface is allowed; the interfaces are kept in source order. */
  lemma ImplementsLeadingAmpersand()
    ensures DocumentAt(ImplementsTokens(), 0) == Ok([ObjectT(false, NoDescription, "Person", ["Foo", "Bar"], [], [])], 9)
  {
    var ts := ImplementsTokens();
    var person := ObjectT(false, NoDescription, "Person", ["Foo", "Bar"], [], []);
    ImplementsList();
    assert DirectivesAt(ts, 7) == Ok([], 7);
    assert FieldsDefinitionAt(ts, 7) == Ok([], 9);
    assert ObjectTypeBodyAt(ts, 7, NoDescription, false, "Person", ["Foo", "Bar"]) == Ok(person, 9);
    assert NameAfterAt(ts, 0, Type) == Ok("Person", 2);
    assert ObjectTypeAt(ts, 0, NoDescription, false) == Ok(person, 9);
    assert DefinitionAt(ts, 0) == Ok(person, 9);
    OneDefinition(ts);
  }

  /** `type Person implements Foo & {}` */
  function DanglingAmpersandTokens(): seq<Token> {
    [Glued(Type, "type"), Spaced(Ident, "Person"), Spaced(Implements, "implements"),
     Spaced(Ident, "Foo"), Spaced(And, "&"), Spaced(CurlyBracketOpen, "{"), Glued(CurlyBracketClose, "}")]
  }

  /** `implements Foo & {`: the `{` after the `&` is where the list fails. */
  lemma DanglingAmpersandList()
    ensures ImplementsAt(DanglingAmpersandTokens(), 2) == Err(5)
  {
    var ts := DanglingAmpersandTokens();
    assert NamesAfterSeparatorAt(ts, 5, And) == Err(5);
    assert NamesAfterSeparatorAt(ts, 3, And) == Err(5);
  }

  /** An `&` must be followed by another interface name. */
  lemma ImplementsDanglingAmpersand()
    ensures DocumentAt(DanglingAmpersandTokens(), 0).Err?
  {
    var ts := DanglingAmpersandTokens();
    DanglingAmpersandList();
    assert NameAfterAt(ts, 0, Type) == Ok("Person", 2);
    assert ObjectTypeAt(ts, 0, NoDescription, false) == Err(5);
    assert DefinitionAt(ts, 0) == Err(5);
    FirstDefinitionFails(ts);
  }

  // -------------------------------------------------- directive locations

  const FieldLocation := ExecutableDirectiveLocationField
  const SchemaLocation := TypeSystemDirectiveLocationSchema
  const ScalarLocation := TypeSystemDirectiveLocationScalar

  /** `directive @name on` followed by locations that end the stream is one directive definition without arguments. */
  lemma LocationsParse(ts: seq<Token>, locations: Locations)
    requires KindAt(ts, 0) == Keyword.Directive && KindAt(ts, 1) == At && KindAt(ts, 2) == Ident && KindAt(ts, 3) == On
    requires LocationsAt(ts, 4) == Ok(locations, |ts|)
    ensures DefinitionAt(ts, 0) == Ok(DirectiveDefT(NoDescription, LiteralAt(ts, 2), [], locations), |ts|)
  {
    var d := DirectiveDefT(NoDescription, LiteralAt(ts, 2), [], locations);
    assert DirectiveNameAt(ts, 0) == Ok(LiteralAt(ts, 2), 3);
    assert ArgumentsDefinitionAt(ts, 3) == Ok([], 3);
    assert DirectiveDefinitionLocationsAt(ts, 3, NoDescription, LiteralAt(ts, 2), []) == Ok(d, |ts|);
    assert DirectiveDefinitionAt(ts, 0, NoDescription) == Ok(d, |ts|);
    assert TypeSystemDefinitionAt(ts, 0, NoDescription, false) == Ok(d, |ts|);
    assert UndescribedDefinitionAt(ts, 0) == Ok(d, |ts|);
  }

  /** `directive @example on FIELD` */
  function SingleLocationTokens(): seq<Token> {
    [Glued(Keyword.Directive, "directive"), Spaced(At, "@"), Glued(Ident, "example"), Spaced(On, "on"),
     Spaced(Ident, "FIELD")]
  }

  /** `on FIELD` declares exactly the field location. */
  lemma SingleLocation()
    ensures DocumentAt(SingleLocationTokens(), 0) == Ok([DirectiveDefT(NoDescription, "example", [], {FieldLocation})], 5)
  {
    var ts := SingleLocationTokens();
    assert FromName("FIELD") == Some(FieldLocation);
    assert LocationsAt(ts, 4) == Ok({FieldLocation}, 5);
    LocationsParse(ts, {FieldLocation});
    OneDefinition(ts);
  }

  /** `directive @example on FIELD | SCALAR | SCHEMA` */
  function ThreeLocationTokens(): seq<Token> {
    [Glued(Keyword.Directive, "directive"), Spaced(At, "@"), Glued(Ident, "example"), Spaced(On, "on"),
     Spaced(Ident, "FIELD"), Spaced(Pipe, "|"), Spaced(Ident, "SCALAR"), Spaced(Pipe, "|"), Spaced(Ident, "SCHEMA")]
  }

  /** `FIELD | SCALAR | SCHEMA` resolves to those three locations. */
  lemma ThreeLocationList()
    ensures LocationsAt(ThreeLocationTokens(), 4) == Ok({FieldLocation, ScalarLocation, SchemaLocation}, 9)
  {
    var ts := ThreeLocationTokens();
    assert FromName("FIELD") == Some(FieldLocation);
    assert FromName("SCALAR") == Some(ScalarLocation);
    assert FromName("SCHEMA") == Some(SchemaLocation);
    assert LocationsAfterSeparatorAt(ts, 8) == Ok({SchemaLocation}, 9);
    assert LocationsAfterSeparatorAt(ts, 6).value == {ScalarLocation, SchemaLocation};
    assert LocationsAfterSeparatorAt(ts, 6) == Ok({ScalarLocation, SchemaLocation}, 9);
    assert LocationsAfterSeparatorAt(ts, 4).value == {FieldLocation, ScalarLocation, SchemaLocation};
  }

  /** `on FIELD | SCALAR | SCHEMA` declares those three locations. */
  lemma MultipleLocations()
    ensures DocumentAt(ThreeLocationTokens(), 0)
         == Ok([DirectiveDefT(NoDescription, "example", [], {FieldLocation, ScalarLocation, SchemaLocation})], 9)
  {
    var ts := ThreeLocationTokens();
    ThreeLocationList();
    LocationsParse(ts, {FieldLocation, ScalarLocation, SchemaLocation});
    OneDefinition(ts);
  }

  /** Iterating a location set visits its members in enumeration order, not in source order. */
  lemma LocationIterationOrder()
    ensures Iterable({FieldLocation}) == [FieldLocation]
    ensures Iterable({FieldLocation, ScalarLocation, SchemaLocation}) == [FieldLocation, SchemaLocation, ScalarLocation]
  {
    NothingFrom({FieldLocation}, 4);
    assert MembersFrom({FieldLocation}, 3) == [FieldLocation];
    var three := {FieldLocation, ScalarLocation, SchemaLocation};
    NothingFrom(three, 9);
    assert MembersFrom(three, 8) == [ScalarLocation];
    assert MembersFrom(three, 7) == [SchemaLocation, ScalarLocation];
    assert MembersFrom(three, 4) == [SchemaLocation, ScalarLocation];
    assert MembersFrom(three, 3) == [FieldLocation, SchemaLocation, ScalarLocation];
  }

  /** A directive definition whose locations fail is not a document. */
  lemma LocationsFail(ts: seq<Token>)
    requires KindAt(ts, 0) == Keyword.Directive && KindAt(ts, 1) == At && KindAt(ts, 2) == Ident && KindAt(ts, 3) == On
    requires LocationsAt(ts, 4).Err?
    ensures DocumentAt(ts, 0).Err?
  {
    var name := LiteralAt(ts, 2);
    assert DirectiveNameAt(ts, 0) == Ok(name, 3);
    assert ArgumentsDefinitionAt(ts, 3) == Ok([], 3);
    assert DirectiveDefinitionLocationsAt(ts, 3, NoDescription, name, []).Err?;
    assert DirectiveDefinitionArgumentsAt(ts, 3, NoDescription, name).Err?;
    assert DirectiveDefinitionAt(ts, 0, NoDescription).Err?;
    assert TypeSystemDefinitionAt(ts, 0, NoDescription, false).Err?;
    assert DefinitionAt(ts, 0).Err?;
    FirstDefinitionFails(ts);
  }

  /** `FIELD | SCALAR | SCHEMA |` fails at the end of the stream, where a fourth location should be. */
  lemma TrailingPipeList()
    ensures LocationsAt(ThreeLocationTokens() + [Spaced(Pipe, "|")], 4) == Err(10)
  {
    var ts := ThreeLocationTokens() + [Spaced(Pipe, "|")];
    assert FromName("FIELD") == Some(FieldLocation);
    assert FromName("SCALAR") == Some(ScalarLocation);
    assert FromName("SCHEMA") == Some(SchemaLocation);
    assert LocationsAfterSeparatorAt(ts, 10) == Err(10);
    assert LocationsAfterSeparatorAt(ts, 8) == Err(10);
    assert LocationsAfterSeparatorAt(ts, 6) == Err(10);
  }

  /** A trailing `|` is an error. */
  lemma TrailingPipe()
    ensures DocumentAt(ThreeLocationTokens() + [Spaced(Pipe, "|")], 0).Err?
  {
    var ts := ThreeLocationTokens() + [Spaced(Pipe, "|")];
    TrailingPipeList();
    LocationsFail(ts);
  }

  /** No location at all, or an unknown location name, is an error. */
  lemma MissingOrInvalidLocation()
    ensures DocumentAt(SingleLocationTokens()[..4], 0).Err?
    ensures DocumentAt(SingleLocationTokens()[..4] + [Spaced(Ident, "INVALID")], 0).Err?
  {
    var missing := SingleLocationTokens()[..4];
    assert LocationsAt(missing, 4) == Err(4);
    LocationsFail(missing);
    var invalid := SingleLocationTokens()[..4] + [Spaced(Ident, "INVALID")];
    assert FromName("INVALID") == None;
    assert LocationsAt(invalid, 4) == Err(4);
    LocationsFail(invalid);
  }

  /** parse on `directive @example on FIELD | SCALAR | SCHEMA`: iterating the stored locations yields FIELD, SCHEMA, SCALAR, then stops. */
  method MultipleLocationsTest() returns (first: DirectiveLocation, second: DirectiveLocation, third: DirectiveLocation, more: bool)
    ensures first == FieldLocation && second == SchemaLocation && third == ScalarLocation && !more
  {
    var document := new Document();
    MultipleLocations();
    LocationIterationOrder();
    var err := Parse(ThreeLocationTokens(), document);
    var root := document.rootNodes[0];
    assert DenotesRoot(document.arenas, root, DirectiveDefT(NoDescription, "example", [], {FieldLocation, ScalarLocation, SchemaLocation}));
    var example := document.arenas.directiveDefinitions[root.ref];
    var locations := new DirectiveLocationIterator(example.directiveLocations);
    var ok := locations.Next();
    assert ok;
    first := locations.Value();
    ok := locations.Next();
    assert ok;
    second := locations.Value();
    ok := locations.Next();
    assert ok;
    third := locations.Value();
    more := locations.Next();
  }

  // --------------------------------------------------------- descriptions

  /** `"JSON scalar description" scalar JSON` */
  function DescribedScalarTokens(): seq<Token> {
    [Glued(String, "JSON scalar description"), Spaced(Keyword.Scalar, "scalar"), Spaced(Ident, "JSON")]
  }

  /** A quoted description in front of a definition belongs to it, its content without the quotes. */
  lemma DescribedScalar()
    ensures DocumentAt(DescribedScalarTokens(), 0)
         == Ok([ScalarT(false, Described(false, "JSON scalar description"), "JSON", [])], 3)
  {
    var ts := DescribedScalarTokens();
    var described := ScalarT(false, Described(false, "JSON scalar description"), "JSON", []);
    assert ScalarTypeAt(ts, 1, Described(false, "JSON scalar description"), false) == Ok(described, 3);
    assert DefinitionAt(ts, 0) == Ok(described, 3);
    OneDefinition(ts);
  }

  /** `scalar JSON`: a definition without a description. */
  lemma PlainScalar()
    ensures DocumentAt(DescribedScalarTokens()[1..], 0) == Ok([ScalarT(false, NoDescription, "JSON", [])], 2)
  {
    var ts := DescribedScalarTokens()[1..];
    assert ScalarTypeAt(ts, 0, NoDescription, false) == Ok(ScalarT(false, NoDescription, "JSON", []), 2);
    assert DefinitionAt(ts, 0) == Ok(ScalarT(false, NoDescription, "JSON", []), 2);
    OneDefinition(ts);
  }

  /** parse stores a quoted description as defined, not a block string, with its content. */
  method ScalarDescriptionTest() returns (description: Description)
    ensures description == Description(true, false, "JSON scalar description")
  {
    DescribedScalar();
    var document := new Document();
    var err := Parse(DescribedScalarTokens(), document);
    var root := document.rootNodes[0];
    assert DenotesRoot(document.arenas, root, ScalarT(false, Described(false, "JSON scalar description"), "JSON", []));
    description := document.arenas.scalarTypeDefinitions[root.ref].description;
  }

  /** parse leaves the description of `scalar JSON` undefined. */
  method ScalarWithoutDescriptionTest() returns (name: string, description: Description)
    ensures name == "JSON" && !description.isDefined
  {
    PlainScalar();
    var document := new Document();
    var err := Parse(DescribedScalarTokens()[1..], document);
    var root := document.rootNodes[0];
    assert DenotesRoot(document.arenas, root, ScalarT(false, NoDescription, "JSON", []));
    name := document.arenas.scalarTypeDefinitions[root.ref].name;
    description := document.arenas.scalarTypeDefinitions[root.ref].description;
  }

  /** The raw text between the triple quotes of the `dateOfBirth` description, indentation included. */
  const DateOfBirthRaw := "\n\t\t\t\t\t\t\tdate of birth\n\t\t\t\t\t\t\t"

  /** `type Person { "age of the person" age: Int """...""" dateOfBirth: Date }` */
  function PersonTokens(): seq<Token> {
    [Glued(Type, "type"), Spaced(Ident, "Person"), Spaced(CurlyBracketOpen, "{"),
     Spaced(String, "age of the person"), Spaced(Ident, "age"), Glued(Colon, ":"), Spaced(Ident, "Int"),
     Spaced(BlockString, DateOfBirthRaw), Spaced(Ident, "dateOfBirth"), Glued(Colon, ":"), Spaced(Ident, "Date"),
     Spaced(CurlyBracketClose, "}")]
  }

  const AgeField := FieldDefinitionTree(Described(false, "age of the person"), "age", [], NamedT("Int"), [])
  const DateOfBirthField := FieldDefinitionTree(Described(true, DateOfBirthRaw), "dateOfBirth", [], NamedT("Date"), [])

  /** `"age of the person" age: Int` */
  lemma AgeFieldParses()
    ensures FieldDefinitionAt(PersonTokens(), 3) == Ok(AgeField, 7)
  {
    var ts := PersonTokens();
    var d := Described(false, "age of the person");
    assert DescribedNameAt(ts, 3) == Ok(DescribedName(d, "age"), 5);
    assert TypeAt(ts, 6) == Ok(NamedT("Int"), 7);
    assert FieldDefinitionTypedAt(ts, 6, d, "age", []) == Ok(AgeField, 7);
    assert FieldDefinitionArgumentsAt(ts, 5, d, "age") == Ok(AgeField, 7);
  }

  /** `"""..."""  dateOfBirth: Date` */
  lemma DateOfBirthFieldParses()
    ensures FieldDefinitionAt(PersonTokens(), 7) == Ok(DateOfBirthField, 11)
  {
    var ts := PersonTokens();
    var d := Described(true, DateOfBirthRaw);
    assert DescribedNameAt(ts, 7) == Ok(DescribedName(d, "dateOfBirth"), 9);
    assert TypeAt(ts, 10) == Ok(NamedT("Date"), 11);
    assert FieldDefinitionTypedAt(ts, 10, d, "dateOfBirth", []) == Ok(DateOfBirthField, 11);
    assert FieldDefinitionArgumentsAt(ts, 9, d, "dateOfBirth") == Ok(DateOfBirthField, 11);
  }

  /** The fields of `Person`, up to its `}`. */
  lemma PersonFields()
    ensures FieldDefinitionsAt(PersonTokens(), 3) == Ok([AgeField, DateOfBirthField], 12)
  {
    var ts := PersonTokens();
    AgeFieldParses();
    DateOfBirthFieldParses();
    assert FieldDefinitionsAt(ts, 11) == Ok([], 12);
    FieldDefinitionsStep(ts, 7);
    assert FieldDefinitionsAt(ts, 7).value == [DateOfBirthField];
    assert FieldDefinitionsAt(ts, 7) == Ok([DateOfBirthField], 12);
    FieldDefinitionsStep(ts, 3);
    assert FieldDefinitionsAt(ts, 3).value == [AgeField, DateOfBirthField];
  }

  /** `type Name { fields }` spanning the whole stream is one object type without interfaces or directives. */
  lemma ObjectWithFields(ts: seq<Token>, fields: seq<FieldDefinitionTree>)
    requires KindAt(ts, 0) == Type && KindAt(ts, 1) == Ident && KindAt(ts, 2) == CurlyBracketOpen
    requires FieldDefinitionsAt(ts, 3) == Ok(fields, |ts|)
    ensures DefinitionAt(ts, 0) == Ok(ObjectT(false, NoDescription, LiteralAt(ts, 1), [], [], fields), |ts|)
  {
    var d := ObjectT(false, NoDescription, LiteralAt(ts, 1), [], [], fields);
    assert NameAfterAt(ts, 0, Type) == Ok(LiteralAt(ts, 1), 2);
    assert ImplementsAt(ts, 2) == Ok([], 2);
    assert DirectivesAt(ts, 2) == Ok([], 2);
    assert ObjectTypeBodyAt(ts, 2, NoDescription, false, LiteralAt(ts, 1), []) == Ok(d, |ts|);
    assert ObjectTypeAt(ts, 0, NoDescription, false) == Ok(d, |ts|);
  }

  /** Field descriptions: a quoted one and a block string, whose content is kept raw. */
  lemma DescribedFields()
    ensures DocumentAt(PersonTokens(), 0)
         == Ok([ObjectT(false, NoDescription, "Person", [], [], [AgeField, DateOfBirthField])], 12)
  {
    var ts := PersonTokens();
    assert |ts| == 12 && LiteralAt(ts, 1) == "Person";
    assert KindAt(ts, 0) == Type && KindAt(ts, 1) == Ident && KindAt(ts, 2) == CurlyBracketOpen;
    PersonFields();
    ObjectWithFields(ts, [AgeField, DateOfBirthField]);
    OneDefinition(ts);
  }

  /** parse stores the age description as a quoted string and the dateOfBirth one as a block string with its raw content. */
  method DescribedFieldsTest() returns (age: FieldDefinition, dateOfBirth: FieldDefinition)
    ensures age.name == "age" && age.description == Description(true, false, "age of the person")
    ensures dateOfBirth.name == "dateOfBirth" && dateOfBirth.description == Description(true, true, DateOfBirthRaw)
  {
    DescribedFields();
    var document := new Document();
    var err := Parse(PersonTokens(), document);
    var root := document.rootNodes[0];
    assert DenotesRoot(document.arenas, root, ObjectT(false, NoDescription, "Person", [], [], [AgeField, DateOfBirthField]));
    var person := document.arenas.objectTypeDefinitions[root.ref];
    age := document.arenas.fieldDefinitions[person.fieldsDefinition[0]];
    dateOfBirth := document.arenas.fieldDefinitions[person.fieldsDefinition[1]];
  }

  // ------------------------------------------------------ fragment spreads

  /** A fragment spread names its fragment and keeps its directives; `on` cannot name a fragment. */
  lemma FragmentSpreads()
    ensures FragmentSpreadAt([Glued(Ident, "friendFields"), Spaced(At, "@"), Glued(Ident, "foo")], 0)
         == Ok(SpreadT("friendFields", [DirectiveTree("foo", [])]), 3)
    ensures FragmentSpreadAt([Glued(On, "on")], 0) == Err(0)
  {
    var ts := [Glued(Ident, "friendFields"), Spaced(At, "@"), Glued(Ident, "foo")];
    DirectiveNamed(ts, 1);
    assert DirectivesAt(ts, 3) == Ok([], 3);
    assert DirectivesAt(ts, 1).value == [DirectiveTree("foo", [])];
  }
}

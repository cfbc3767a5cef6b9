/**
 * The token stream the parser consumes. The lexer that produces it is not part
 * of this model: a token is its keyword class, its literal text (for a string
 * or block string, the raw text between the delimiters; for a number, the
 * digits without any sign) and whether ignored characters (whitespace, line
 * terminators, commas, comments) stand between it and the token before it.
 */
module Tokens {

  datatype Keyword =
    | Eof | Ident | Integer | Float | String | BlockString
    | Colon | Bang | Pipe | And | At | Dollar | Equals | Sub | Spread
    | BracketOpen | BracketClose                 // ( )
    | SquareBracketOpen | SquareBracketClose     // [ ]
    | CurlyBracketOpen | CurlyBracketClose       // { }
    | Schema | Type | Interface | Union | Enum | Input | Scalar | Directive
    | Extend | Implements | On
    | Query | Mutation | Subscription | Fragment
    | True | False | Null

  /** One lexed token; `spaced` is false when it starts exactly where the previous token ended. */
  datatype Token = Token(keyword: Keyword, literal: string, spaced: bool)

  /** Keywords spelled as words; the grammar accepts each of them wherever a Name is expected. */
  predicate IsWordKeyword(k: Keyword) {
    k in {Schema, Type, Interface, Union, Enum, Input, Scalar, Directive, Extend, Implements, On,
          Query, Mutation, Subscription, Fragment, True, False, Null}
  }

  /** A token class that can stand for a GraphQL Name. */
  predicate IsName(k: Keyword) {
    k == Ident || IsWordKeyword(k)
  }

  /** The keyword of the token at index `i`, or `Eof` past the end (the parser's `peek`). */
  function KindAt(ts: seq<Token>, i: nat): Keyword {
    if i < |ts| then ts[i].keyword else Eof
  }

  /** The literal of the token at index `i`, empty past the end. */
  function LiteralAt(ts: seq<Token>, i: nat): string {
    if i < |ts| then ts[i].literal else ""
  }

  /** Whether the token at index `i` is separated from its predecessor by ignored characters. */
  function SpacedAt(ts: seq<Token>, i: nat): bool {
    if i < |ts| then ts[i].spaced else true
  }
}

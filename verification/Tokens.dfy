/** The tokens of nulang (nucleus/lang/token.h) and the error codes of the
    compiler (nucleus/lang/error.h). Constructors keep the source's spelling. */
module Tokens {

  datatype Primitive =
    | BOOL | INT | FIX | IVEC2 | IVEC3 | IVEC4 | VEC2 | VEC3 | VEC4
    | MAT4 | QUAT | ENTITY | RESOURCE | UNKNOWN

  datatype Literal = Nil | Bool(b: bool) | Str(s: string) | Int(i: nat) | Fix(f: int)

  datatype Token =
    | IDENTIFIER(name: string) | PRIMITIVE(prim: Primitive) | LITERAL(lit: Literal)
    | IMPORT | FROM | EXPORT | COMMENT | SPACE
    | LPAREN | RPAREN | LBRACKET | RBRACKET | COMMA | DOT | COLON
    | ADD | SUB | MUL | DIV | EQUAL | ASSIGN | NEQUAL | LEQUAL | GEQUAL | LESS | GREATER
    | AND | OR | NOT | LET | IF | THEN | ELSE | ELIF | END | DO | FOR | IN | WHILE
    | FUNCTION | BREAK | CONTINUE | RETURN | INSERT | DELETE | SINGLETON | ITER | NEXT | EOF

  /** The error codes the lexer, parser and resolvers return. UNDEFINED is
      not a code of the source: it marks the places where the C code loops forever
      or goes on with an uninitialised or stale node id. */
  datatype Error =
    | NONE | OUT_OF_MEMORY | OUT_OF_NODE
    | ILLEGAL_CHARACTER | PARSE_FIXED_POINT | UNTERMINATED_STRING | UNEXPECTED_TOKEN
    | SYMBOL_ALREADY_DEFINED | INVALID_ATOM_EXPRESSION | UNEXPECTED_BINOP
    | NON_STATEMENT_TOKEN | IDENTIFIER_AS_STATEMENT | INVALID_VARTYPE
    | UNKNOWN_SYMBOL_TYPE | UNRESOLVED_SYMBOL | ARCHETYPE_NOT_FOUND
    | UNDEFINED

  /** What one call of the lexer delivers: a token, or an error after which lexing
      could go on. A stream is a finite sequence of items; past its end the lexer
      delivers EOF for ever. */
  datatype Item = Tok(t: Token) | Bad(e: Error)

  function Head(s: seq<Item>): Item {
    if s == [] then Tok(EOF) else s[0]
  }

  function Tail(s: seq<Item>): seq<Item> {
    if s == [] then [] else s[1..]
  }

  /** Streams as the lexer makes them: EOF is their end, not an element, and an
      error item carries an error. */
  ghost predicate Proper(s: seq<Item>) {
    forall i :: 0 <= i < |s| ==> s[i] != Tok(EOF) && s[i] != Bad(NONE)
  }
}

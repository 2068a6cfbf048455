/** Which error a refused program gets: the codes of nucleus/lang/parser.h, token by token,
    and how far into a program they reach. */
module Refusals {
  import opened Tokens
  import opened Operators
  import opened Syntax
  import opened Reading
  import opened Canonical
  import opened Opening

  // ----- where a statement, an expression or a type should begin

  /** A statement begins with a name or one of nine keywords, of which four are not
      implemented. */
  lemma {:induction false} NoStatement(s: seq<Item>, room: nat)
    ensures Head(s).Bad? ==> ReadStmt(s, room) == Fail(Head(s).e)
    ensures Head(s) in {Tok(EXPORT), Tok(FOR), Tok(BREAK), Tok(CONTINUE)} ==> ReadStmt(s, room) == Fail(UNDEFINED)
    ensures Head(s).Tok? && !Head(s).t.IDENTIFIER?
            && Head(s).t !in {LET, FUNCTION, RETURN, IF, WHILE, EXPORT, FOR, BREAK, CONTINUE} ==>
              ReadStmt(s, room) == Fail(NON_STATEMENT_TOKEN)
  {
    hide ReadLet, ReadFun, ReadBranches, ReadWhile, ReadSimple, ReadExpr;
  }

  /** An expression begins with a name, a type, a literal, `insert`, `singleton`, a
      parenthesis, a minus or `not`. */
  lemma {:induction false} NoExpression(s: seq<Item>, min: nat, room: nat)
    ensures Head(s).Bad? ==> ReadExpr(s, min, room) == Fail(Head(s).e)
    ensures Head(s).Tok? && Head(s).t in {ADD, MUL, DIV, EQUAL, NEQUAL, LEQUAL, GEQUAL, LESS, GREATER, AND, OR} ==>
              ReadExpr(s, min, room) == Fail(UNEXPECTED_BINOP)
    ensures Head(s).Tok? && !Head(s).t.IDENTIFIER? && !Head(s).t.PRIMITIVE? && !Head(s).t.LITERAL?
            && Head(s).t !in {INSERT, SINGLETON, LPAREN, SUB, NOT}
            && Head(s).t !in {ADD, MUL, DIV, EQUAL, NEQUAL, LEQUAL, GEQUAL, LESS, GREATER, AND, OR} ==>
              ReadExpr(s, min, room) == Fail(INVALID_ATOM_EXPRESSION)
  {
    hide Climb, ReadPlace, ReadChain, TryCall, ReadArchetype;
    ReadExprIs(s, min, room);
    NoAtom(s, room);
  }

  lemma {:induction false} NoAtom(s: seq<Item>, room: nat)
    ensures Head(s).Tok? && !Head(s).t.IDENTIFIER? && !Head(s).t.PRIMITIVE? && !Head(s).t.LITERAL?
            && Head(s).t !in {INSERT, SINGLETON} ==>
              ReadAtom(s, room) == Fail(INVALID_ATOM_EXPRESSION)
  {
    hide ReadPlace, ReadChain, TryCall, ReadArchetype;
  }

  lemma {:induction false} NoType(s: seq<Item>, room: nat)
    ensures Head(s).Tok? && Head(s) != Tok(COLON) ==> ReadType(s, room) == Fail(UNEXPECTED_TOKEN)
    ensures Head(s) == Tok(COLON) && Head(Tail(s)).Tok?
            && !Head(Tail(s)).t.PRIMITIVE? && !Head(Tail(s)).t.IDENTIFIER? ==>
              ReadType(s, room) == Fail(INVALID_VARTYPE)
  {
  }

  // ----- names and members

  /** A name with its members is no statement unless `=` or `(` follows. */
  lemma {:induction false} NameAlone(p: Place, rest: seq<Item>, room: nat)
    requires RootedInName(p) && PlaceNodes(p) <= room
    requires Head(rest).Tok? && Head(rest).t !in {DOT, ASSIGN, LPAREN}
    ensures ReadStmt(PlaceTokens(p) + rest, room) == Fail(IDENTIFIER_AS_STATEMENT)
  {
    hide ReadPlace, ReadExpr, ReadArgs, PlaceTokens, PlaceNodes, ReadLet, ReadFun, ReadBranches, ReadWhile;
    PlaceReads(p, rest, room);
    PlaceTokensStart(p);
    assert ReadChain(rest, p, room - PlaceNodes(p)) == Ok(p, rest, room - PlaceNodes(p));
    NameHead(p, rest);
  }

  lemma {:induction false} NameHead(p: Place, rest: seq<Item>)
    requires PlaceTokens(p) != []
    ensures Head(PlaceTokens(p) + rest) == PlaceTokens(p)[0]
  {
    hide PlaceTokens;
  }

  /** Types have no members but the two builtins of `vec2`. */
  lemma {:induction false} NoMember(prim: Primitive, n: string, rest: seq<Item>, min: nat, room: nat)
    requires room > 0 && !(prim == VEC2 && (n == "norm" || n == "dist"))
    ensures ReadExpr([Tok(PRIMITIVE(prim)), Tok(DOT), Tok(IDENTIFIER(n))] + rest, min, room)
         == Fail(UNKNOWN_SYMBOL_TYPE)
  {
    hide Climb, TryCall;
    var link := [Tok(DOT), Tok(IDENTIFIER(n))] + rest;
    var s := [Tok(PRIMITIVE(prim)), Tok(DOT), Tok(IDENTIFIER(n))] + rest;
    assert s[1..] == link && link[1..] == [Tok(IDENTIFIER(n))] + rest;
    assert ReadLink(link, Ctor(prim), room - 1) == Fail(UNKNOWN_SYMBOL_TYPE);
    assert ReadChain(link, Ctor(prim), room - 1) == Fail(UNKNOWN_SYMBOL_TYPE);
    assert ReadAtom(s, room) == Fail(UNKNOWN_SYMBOL_TYPE);
  }

  /** And those have none. */
  lemma {:induction false} NoMemberOfBuiltin(f: BuiltinFunction, rest: seq<Item>, room: nat)
    requires Head(rest) == Tok(DOT) && Head(Tail(rest)).Tok? && Head(Tail(rest)).t.IDENTIFIER?
    ensures ReadChain(rest, Builtin(f), room) == Fail(UNKNOWN_SYMBOL_TYPE)
  {
  }

  // ----- words that are missing

  lemma {:induction false} LetMissing(s: seq<Item>, n: string, rest: seq<Item>, room: nat)
    ensures Head(s).Tok? && !Head(s).t.IDENTIFIER? ==> ReadStmt([Tok(LET)] + s, room) == Fail(UNEXPECTED_TOKEN)
    ensures Head(rest).Tok? && Head(rest).t !in {COLON, ASSIGN} ==>
              ReadStmt([Tok(LET), Tok(IDENTIFIER(n))] + rest, room) == Fail(UNEXPECTED_TOKEN)
  {
    hide ReadExpr, ReadFun, ReadBranches, ReadWhile, ReadSimple;
    assert ([Tok(LET)] + s)[1..] == s;
    assert ([Tok(LET), Tok(IDENTIFIER(n))] + rest)[1..] == [Tok(IDENTIFIER(n))] + rest;
  }

  lemma {:induction false} FunctionMissing(s: seq<Item>, n: string, rest: seq<Item>, room: nat)
    ensures Head(s).Tok? && !Head(s).t.IDENTIFIER? ==> ReadStmt([Tok(FUNCTION)] + s, room) == Fail(UNEXPECTED_TOKEN)
    ensures Head(rest).Tok? && Head(rest).t != LPAREN && room > 0 ==>
              ReadStmt([Tok(FUNCTION), Tok(IDENTIFIER(n))] + rest, room) == Fail(UNEXPECTED_TOKEN)
  {
    hide ReadExpr, ReadLet, ReadBranches, ReadWhile, ReadSimple, ReadParams, ReadFunRest;
    assert ([Tok(FUNCTION)] + s)[1..] == s;
    assert ([Tok(FUNCTION), Tok(IDENTIFIER(n))] + rest)[1..] == [Tok(IDENTIFIER(n))] + rest;
    if room > 0 { FunNameSteps(n, rest, room); }
  }

  /** A parenthesis that is not closed. */
  lemma {:induction false} ParenMissing(x: Expr, rest: seq<Item>, min: nat, room: nat)
    requires Canon(x, 1) && Closed(x) && ExprNodes(x) <= room && Follows(x, 1, rest) && Head(rest) != Tok(RPAREN)
    ensures ReadExpr([Tok(LPAREN)] + (ExprTokens(x) + rest), min, room) == Fail(UNEXPECTED_TOKEN)
  {
    hide ReadAtom, Climb, ExprTokens, ExprNodes, Canon, Closed, Follows, ReadExpr;
    var s := [Tok(LPAREN)] + (ExprTokens(x) + rest);
    ExprReads(x, 1, rest, room);
    assert Head(rest).Tok? by { FollowsToken(x, 1, rest); }
    assert s[1..] == ExprTokens(x) + rest;
    ReadExprIs(s, min, room);
  }

  lemma {:induction false} FollowsToken(x: Expr, min: nat, rest: seq<Item>)
    requires Follows(x, min, rest)
    ensures Head(rest).Tok?
  {
  }

  /** A condition without its `do` or `then`. */
  lemma {:induction false} DoMissing(c: Expr, rest: seq<Item>, room: nat)
    requires Canon(c, 0) && Closed(c) && ExprNodes(c) < room && Follows(c, 0, rest) && Head(rest) != Tok(DO)
    ensures ReadStmt([Tok(WHILE)] + (ExprTokens(c) + rest), room) == Fail(UNEXPECTED_TOKEN)
  {
    hide ReadExpr, ReadBody, ExprTokens, ExprNodes, Canon, Closed, Follows, ReadLet, ReadFun, ReadSimple, ReadBranches;
    var s := ExprTokens(c) + rest;
    FollowsToken(c, 0, rest);
    ExprReads(c, 0, rest, room);
    Peel(Tok(WHILE), s);
    assert ReadWhile(s, room) == Fail(UNEXPECTED_TOKEN);
  }

  lemma {:induction false} ThenMissing(c: Expr, rest: seq<Item>, room: nat)
    requires Canon(c, 0) && Closed(c) && ExprNodes(c) < room && Follows(c, 0, rest) && Head(rest) != Tok(THEN)
    ensures ReadStmt([Tok(IF)] + (ExprTokens(c) + rest), room) == Fail(UNEXPECTED_TOKEN)
  {
    hide ReadExpr, ReadBody, ReadElse, ExprTokens, ExprNodes, Canon, Closed, Follows, ReadLet, ReadFun, ReadSimple,
      ReadWhile;
    var s := ExprTokens(c) + rest;
    FollowsToken(c, 0, rest);
    ExprReads(c, 0, rest, room - 1);
    Peel(Tok(IF), s);
    assert ReadBranch(s, room - 1) == Fail(UNEXPECTED_TOKEN);
  }

  // ----- whole programs

  /** What is wrong with the first statement that goes wrong is what is wrong with the
      program, however deep that statement stands. */
  lemma {:induction false} ModuleRefused(o: Open, rest: seq<Item>, room: nat, e: Error)
    requires CanonOpen(o) && OpenNodes(o) <= room && ComesAfter(o, AtEof, rest)
    requires ReadStmt(rest, room - OpenNodes(o)) == Fail(e)
    requires o.Here? ==> Head(rest) != Tok(IMPORT) && Head(rest) != Tok(FROM)
    ensures ReadModule(OpenTokens(o) + rest, room) == Fail(e)
  {
    hide ReadBlock, ReadStmt, CanonOpen, OpenNodes, ComesAfter;
    OpenRuns(o, AtEof, [], rest, room, e);
    HeadNoImport(o, rest);
  }

  lemma {:induction false} HeadNoImport(o: Open, rest: seq<Item>)
    requires CanonOpen(o) && ComesAfter(o, AtEof, rest)
    requires o.Here? ==> Head(rest) != Tok(IMPORT) && Head(rest) != Tok(FROM)
    ensures var i := Head(OpenTokens(o) + rest); i.Tok? && i.t != IMPORT && i.t != FROM
  {
    hide StmtTokens, ExprTokens, CanonStmt, ParamTokens, StopsAt, Ends;
    match o
    case Here => assert OpenTokens(o) + rest == rest;
    case Past(st, m) => StmtTokensStart(st);
    case _ =>
  }

  /** A program that ends inside a body. */
  lemma {:induction false} EndMissing(o: Open, room: nat)
    requires CanonOpen(o) && OpenNodes(o) <= room && Inner(o, AtEof) != AtEof
    ensures ReadModule(OpenTokens(o), room) == Fail(NON_STATEMENT_TOKEN)
  {
    hide CanonOpen, OpenTokens, OpenNodes, ReadModule, ReadStmt;
    assert OpenTokens(o) + [] == OpenTokens(o);
    assert Inner(o, AtEof) in {AtEnd, AtBranch};
    NoStatement([], room - OpenNodes(o));
    FreshEnds(o, []);
    ModuleRefused(o, [], room, NON_STATEMENT_TOKEN);
  }

  /** An `end`, `else` or `elif` where no body is open that it could end. */
  lemma {:induction false} EndTooMany(o: Open, t: Token, rest: seq<Item>, room: nat)
    requires CanonOpen(o) && OpenNodes(o) <= room
    requires t in {END, ELSE, ELIF}
             && match Inner(o, AtEof) case AtEof => true case AtEnd => t != END case AtBranch => false
    ensures ReadModule(OpenTokens(o) + ([Tok(t)] + rest), room) == Fail(NON_STATEMENT_TOKEN)
  {
    hide CanonOpen, OpenTokens, OpenNodes, ReadModule, ReadStmt;
    var s := [Tok(t)] + rest;
    NoStatement(s, room - OpenNodes(o));
    FreshEnds(o, s);
    ModuleRefused(o, s, room, NON_STATEMENT_TOKEN);
  }

  /** There is no subtraction: a minus ends the expression before it, and begins no
      statement. */
  lemma {:induction false} MinusRefused(o: Open, rest: seq<Item>, room: nat)
    requires CanonOpen(o) && OpenNodes(o) <= room
    ensures ReadModule(OpenTokens(o) + ([Tok(SUB)] + rest), room) == Fail(NON_STATEMENT_TOKEN)
  {
    hide CanonOpen, OpenTokens, OpenNodes, ReadModule, ReadStmt;
    var s := [Tok(SUB)] + rest;
    NoStatement(s, room - OpenNodes(o));
    FreshEnds(o, s);
    ModuleRefused(o, s, room, NON_STATEMENT_TOKEN);
  }
}

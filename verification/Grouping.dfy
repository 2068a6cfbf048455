/** How operators group, in their own names: without precedences, which tree is read for
    `x op y op z`, and which trees can be read at all. */
module Grouping {
  import opened Tokens
  import opened Operators
  import opened Syntax
  import opened Reading
  import opened Canonical

  /** The token of every operator that stands between two operands. */
  predicate Sign(op: Binop, t: Token) {
    || (op == Add && t == ADD) || (op == Mul && t == MUL) || (op == Div && t == DIV)
    || (op == Equal && t == EQUAL) || (op == Nequal && t == NEQUAL) || (op == Lequal && t == LEQUAL)
    || (op == Gequal && t == GEQUAL) || (op == Less && t == LESS) || (op == Greater && t == GREATER)
    || (op == And && t == AND) || (op == Or && t == OR)
  }

  lemma {:induction false} SignIs(op: Binop, t: Token)
    ensures Sign(op, t) <==> op != Sub && TokenOfBinop(op) == t
    ensures Sign(op, t) ==> IsBinop(t) && BinopFromToken(t) == op
  {
  }

  function Name(x: string): Expr { Ref(Sym(x)) }

  /** The second of two operators goes to the right operand of the first exactly if the
      first is an addition and the second is none, or the first is a multiplication or
      division and the second a comparison or logical, or both are such. */
  lemma {:induction false} ThreeOperands(x: string, y: string, z: string, op1: Binop, t1: Token, op2: Binop, t2: Token,
      room: nat)
    requires Sign(op1, t1) && Sign(op2, t2) && room >= 5
    ensures ReadExpr([Tok(IDENTIFIER(x)), Tok(t1), Tok(IDENTIFIER(y)), Tok(t2), Tok(IDENTIFIER(z))], 0, room)
         == Ok(if || (op1 == Add && op2 != Add)
                  || (op1 in {Mul, Div} && op2 in {Equal, Nequal, Lequal, Gequal, Less, Greater, And, Or})
                  || (op1 in {Equal, Nequal, Lequal, Gequal, Less, Greater, And, Or}
                      && op2 in {Equal, Nequal, Lequal, Gequal, Less, Greater, And, Or})
               then Bin(op1, Name(x), Bin(op2, Name(y), Name(z)))
               else Bin(op2, Bin(op1, Name(x), Name(y)), Name(z)),
               [], room - 5)
  {
    hide ReadExpr, Follows, Canon, Closed, ExprTokens, ExprNodes, Grouped;
    SignIs(op1, t1);
    SignIs(op2, t2);
    var s := [Tok(IDENTIFIER(x)), Tok(t1), Tok(IDENTIFIER(y)), Tok(t2), Tok(IDENTIFIER(z))];
    var e := if Takes(op1, op2) then Bin(op1, Name(x), Bin(op2, Name(y), Name(z)))
             else Bin(op2, Bin(op1, Name(x), Name(y)), Name(z));
    ThreeGrouped(x, y, z, op1, op2);
    CanonIff(e);
    assert s + [] == s;
    ExprReads(e, 0, [], room);
  }

  lemma {:induction false} ThreeGrouped(x: string, y: string, z: string, op1: Binop, op2: Binop)
    requires op1 != Sub && op2 != Sub
    ensures var e := if Takes(op1, op2) then Bin(op1, Name(x), Bin(op2, Name(y), Name(z)))
                     else Bin(op2, Bin(op1, Name(x), Name(y)), Name(z));
            && Grouped(e) && Closed(e) && Follows(e, 0, []) && ExprNodes(e) == 5
            && ExprTokens(e) == [Tok(IDENTIFIER(x)), Tok(TokenOfBinop(op1)), Tok(IDENTIFIER(y)),
                                 Tok(TokenOfBinop(op2)), Tok(IDENTIFIER(z))]
  {
    hide Grouped, Closed, Glue, ExprNodes, ExprTokens, Takes, TokenOfBinop;
    NameIs(x);
    NameIs(y);
    NameIs(z);
    if Takes(op1, op2) {
      BinGrouped(op2, Name(y), Name(z));
      BinGrouped(op1, Name(x), Bin(op2, Name(y), Name(z)));
    } else {
      BinGrouped(op1, Name(x), Name(y));
      BinGrouped(op2, Bin(op1, Name(x), Name(y)), Name(z));
    }
  }

  lemma {:induction false} NameIs(x: string)
    ensures var e := Name(x);
            && Grouped(e) && Closed(e) && Glue(e, []) && ExprNodes(e) == 1
            && ExprTokens(e) == [Tok(IDENTIFIER(x))]
  {
  }

  lemma {:induction false} BinGrouped(op: Binop, l: Expr, r: Expr)
    ensures var e := Bin(op, l, r);
            && (op != Sub && Grouped(l) && Grouped(r) && (l.Bin? ==> !Takes(l.op, op)) && (r.Bin? ==> Takes(op, r.op))
                ==> Grouped(e))
            && Closed(e) == (Closed(l) && Closed(r)) && Glue(e, []) == Glue(r, [])
            && ExprNodes(e) == ExprNodes(l) + ExprNodes(r) + 1
            && ExprTokens(e) == ExprTokens(l) + ([Tok(TokenOfBinop(op))] + ExprTokens(r))
  {
  }

  // ----- every operator by its token

  /** A reading of `x t y`, up to its end. */
  ghost predicate ReadsBetween(x: string, t: Token, y: string, room: nat, e: Expr)
    requires room >= 3
  {
    ReadExpr([Tok(IDENTIFIER(x)), Tok(t), Tok(IDENTIFIER(y))], 0, room) == Ok(e, [], room - 3)
  }

  lemma {:induction false} TwoOperands(x: string, y: string, room: nat)
    requires room >= 3
    ensures ReadsBetween(x, ADD, y, room, Bin(Add, Name(x), Name(y)))
    ensures ReadsBetween(x, MUL, y, room, Bin(Mul, Name(x), Name(y)))
    ensures ReadsBetween(x, DIV, y, room, Bin(Div, Name(x), Name(y)))
    ensures ReadsBetween(x, EQUAL, y, room, Bin(Equal, Name(x), Name(y)))
    ensures ReadsBetween(x, NEQUAL, y, room, Bin(Nequal, Name(x), Name(y)))
    ensures ReadsBetween(x, LEQUAL, y, room, Bin(Lequal, Name(x), Name(y)))
    ensures ReadsBetween(x, GEQUAL, y, room, Bin(Gequal, Name(x), Name(y)))
    ensures ReadsBetween(x, LESS, y, room, Bin(Less, Name(x), Name(y)))
    ensures ReadsBetween(x, GREATER, y, room, Bin(Greater, Name(x), Name(y)))
    ensures ReadsBetween(x, AND, y, room, Bin(And, Name(x), Name(y)))
    ensures ReadsBetween(x, OR, y, room, Bin(Or, Name(x), Name(y)))
    ensures ReadExpr([Tok(SUB), Tok(IDENTIFIER(x))], 0, room) == Ok(Un(Neg, Name(x)), [], room - 2)
    ensures ReadExpr([Tok(NOT), Tok(IDENTIFIER(x))], 0, room) == Ok(Un(Not, Name(x)), [], room - 2)
  {
    hide ReadsBetween, ReadExpr, Sign;
    Signs();
    OneOperation(x, Add, ADD, y, room);
    OneOperation(x, Mul, MUL, y, room);
    OneOperation(x, Div, DIV, y, room);
    OneOperation(x, Equal, EQUAL, y, room);
    OneOperation(x, Nequal, NEQUAL, y, room);
    OneOperation(x, Lequal, LEQUAL, y, room);
    OneOperation(x, Gequal, GEQUAL, y, room);
    OneOperation(x, Less, LESS, y, room);
    OneOperation(x, Greater, GREATER, y, room);
    OneOperation(x, And, AND, y, room);
    OneOperation(x, Or, OR, y, room);
    Prefix(Neg, SUB, x, room);
    Prefix(Not, NOT, x, room);
  }

  lemma {:induction false} Signs()
    ensures Sign(Add, ADD) && Sign(Mul, MUL) && Sign(Div, DIV) && Sign(Equal, EQUAL) && Sign(Nequal, NEQUAL)
            && Sign(Lequal, LEQUAL)
    ensures Sign(Gequal, GEQUAL) && Sign(Less, LESS) && Sign(Greater, GREATER) && Sign(And, AND) && Sign(Or, OR)
  {
  }

  lemma {:induction false} OneOperation(x: string, op: Binop, t: Token, y: string, room: nat)
    requires Sign(op, t) && room >= 3
    ensures ReadsBetween(x, t, y, room, Bin(op, Name(x), Name(y)))
  {
    hide ReadExpr, Glue, Canon, Closed, ExprTokens, ExprNodes, Grouped, Sign;
    var e := Bin(op, Name(x), Name(y));
    SignIs(op, t);
    NameIs(x);
    NameIs(y);
    BinGrouped(op, Name(x), Name(y));
    CanonIff(e);
    assert ExprTokens(e) + [] == [Tok(IDENTIFIER(x)), Tok(t), Tok(IDENTIFIER(y))];
    ExprReads(e, 0, [], room);
  }

  lemma {:induction false} Prefix(op: Unop, t: Token, x: string, room: nat)
    requires ((op == Neg && t == SUB) || (op == Not && t == NOT)) && room >= 2
    ensures ReadExpr([Tok(t), Tok(IDENTIFIER(x))], 0, room) == Ok(Un(op, Name(x)), [], room - 2)
  {
    hide ReadExpr;
    NameIs(x);
    assert Glue(Un(op, Name(x)), []);
    assert ExprTokens(Un(op, Name(x))) + [] == [Tok(t), Tok(IDENTIFIER(x))];
    ExprReads(Un(op, Name(x)), 0, [], room);
  }

  // ----- what binds tighter than every operator

  lemma {:induction false} ReadsBack(e: Expr, s: seq<Item>, room: nat)
    requires Grouped(e) && Closed(e) && Glue(e, []) && ExprTokens(e) == s && ExprNodes(e) <= room
    ensures ReadExpr(s, 0, room) == Ok(e, [], room - ExprNodes(e))
  {
    hide ReadExpr, Glue, Canon, Closed, ExprTokens, ExprNodes, Grouped;
    CanonIff(e);
    assert s + [] == s;
    ExprReads(e, 0, [], room);
  }

  /** A prefix goes to the operand next to it. */
  lemma {:induction false} PrefixFirst(x: string, op: Binop, t: Token, y: string, room: nat)
    requires Sign(op, t) && room >= 4
    ensures ReadExpr([Tok(SUB), Tok(IDENTIFIER(x)), Tok(t), Tok(IDENTIFIER(y))], 0, room)
         == Ok(Bin(op, Un(Neg, Name(x)), Name(y)), [], room - 4)
    ensures ReadExpr([Tok(NOT), Tok(IDENTIFIER(x)), Tok(t), Tok(IDENTIFIER(y))], 0, room)
         == Ok(Bin(op, Un(Not, Name(x)), Name(y)), [], room - 4)
  {
    hide ReadExpr, Sign, Grouped, Closed, Glue, ExprNodes, ExprTokens, TokenOfBinop;
    SignIs(op, t);
    NameIs(y);
    PrefixIs(Neg, SUB, x);
    PrefixIs(Not, NOT, x);
    BinGrouped(op, Un(Neg, Name(x)), Name(y));
    BinGrouped(op, Un(Not, Name(x)), Name(y));
    ReadsBack(Bin(op, Un(Neg, Name(x)), Name(y)), [Tok(SUB), Tok(IDENTIFIER(x)), Tok(t), Tok(IDENTIFIER(y))], room);
    ReadsBack(Bin(op, Un(Not, Name(x)), Name(y)), [Tok(NOT), Tok(IDENTIFIER(x)), Tok(t), Tok(IDENTIFIER(y))], room);
  }

  lemma {:induction false} PrefixIs(op: Unop, t: Token, x: string)
    requires (op == Neg && t == SUB) || (op == Not && t == NOT)
    ensures var e := Un(op, Name(x));
            && Grouped(e) && Closed(e) && Glue(e, []) && ExprNodes(e) == 2
            && ExprTokens(e) == [Tok(t), Tok(IDENTIFIER(x))]
  {
  }

  /** Parentheses hold an operation together, on either side of another. */
  lemma {:induction false} ParensFirst(x: string, y: string, z: string, op1: Binop, t1: Token, op2: Binop, t2: Token,
      room: nat)
    requires Sign(op1, t1) && Sign(op2, t2) && room >= 5
    ensures ReadExpr([Tok(LPAREN), Tok(IDENTIFIER(x)), Tok(t1), Tok(IDENTIFIER(y)), Tok(RPAREN), Tok(t2),
                      Tok(IDENTIFIER(z))], 0, room)
         == Ok(Bin(op2, Paren(Bin(op1, Name(x), Name(y))), Name(z)), [], room - 5)
    ensures ReadExpr([Tok(IDENTIFIER(x)), Tok(t1), Tok(LPAREN), Tok(IDENTIFIER(y)), Tok(t2), Tok(IDENTIFIER(z)),
                      Tok(RPAREN)], 0, room)
         == Ok(Bin(op1, Name(x), Paren(Bin(op2, Name(y), Name(z)))), [], room - 5)
  {
    hide ReadExpr, Sign, Grouped, Closed, Glue, ExprNodes, ExprTokens;
    SignIs(op1, t1);
    SignIs(op2, t2);
    NameIs(x);
    NameIs(y);
    NameIs(z);
    ParenIs(op1, t1, x, y);
    ParenIs(op2, t2, y, z);
    BinGrouped(op2, Paren(Bin(op1, Name(x), Name(y))), Name(z));
    BinGrouped(op1, Name(x), Paren(Bin(op2, Name(y), Name(z))));
    ReadsBack(Bin(op2, Paren(Bin(op1, Name(x), Name(y))), Name(z)),
      [Tok(LPAREN), Tok(IDENTIFIER(x)), Tok(t1), Tok(IDENTIFIER(y)), Tok(RPAREN), Tok(t2), Tok(IDENTIFIER(z))], room);
    ReadsBack(Bin(op1, Name(x), Paren(Bin(op2, Name(y), Name(z)))),
      [Tok(IDENTIFIER(x)), Tok(t1), Tok(LPAREN), Tok(IDENTIFIER(y)), Tok(t2), Tok(IDENTIFIER(z)), Tok(RPAREN)], room);
  }

  lemma {:induction false} ParenIs(op: Binop, t: Token, x: string, y: string)
    requires Sign(op, t)
    ensures var e := Paren(Bin(op, Name(x), Name(y)));
            && Grouped(e) && Closed(e) && Glue(e, []) && ExprNodes(e) == 3
            && ExprTokens(e) == [Tok(LPAREN), Tok(IDENTIFIER(x)), Tok(t), Tok(IDENTIFIER(y)), Tok(RPAREN)]
  {
    hide Sign, Grouped, Closed, Glue, ExprNodes, ExprTokens;
    SignIs(op, t);
    NameIs(x);
    NameIs(y);
    BinGrouped(op, Name(x), Name(y));
    ParenOf(Bin(op, Name(x), Name(y)));
  }

  lemma {:induction false} ParenOf(x: Expr)
    ensures var e := Paren(x);
            && Grouped(e) == Grouped(x) && Closed(e) == Closed(x) && Glue(e, []) && ExprNodes(e) == ExprNodes(x)
            && ExprTokens(e) == [Tok(LPAREN)] + (ExprTokens(x) + [Tok(RPAREN)])
  {
  }

  /** Members first, then a call, and only then a prefix. */
  lemma {:induction false} CallFirst(x: string, y: string, z: string, room: nat)
    requires room >= 5
    ensures ReadExpr([Tok(SUB), Tok(IDENTIFIER(x)), Tok(DOT), Tok(IDENTIFIER(y)), Tok(LPAREN), Tok(IDENTIFIER(z)),
                      Tok(RPAREN)], 0, room)
         == Ok(Un(Neg, Call(Member(Sym(x), y), [Name(z)])), [], room - 5)
  {
    hide ReadExpr, Grouped, Closed, Glue, ExprNodes, ExprTokens;
    var e := Call(Member(Sym(x), y), [Name(z)]);
    NameIs(z);
    assert RootedInName(Sym(x)) && GoodPlace(Member(Sym(x), y));
    CallIs(Member(Sym(x), y), Name(z));
    assert PlaceTokens(Member(Sym(x), y)) == [Tok(IDENTIFIER(x)), Tok(DOT), Tok(IDENTIFIER(y))];
    UnOf(Neg, e);
    ReadsBack(Un(Neg, e),
      [Tok(SUB), Tok(IDENTIFIER(x)), Tok(DOT), Tok(IDENTIFIER(y)), Tok(LPAREN), Tok(IDENTIFIER(z)), Tok(RPAREN)],
      room);
  }

  lemma {:induction false} CallIs(p: Place, x: Expr)
    ensures var e := Call(p, [x]);
            && Grouped(e) == (GoodPlace(p) && Grouped(x)) && Closed(e) == Closed(x) && Glue(e, [])
            && ExprNodes(e) == PlaceNodes(p) + 1 + ExprNodes(x)
            && ExprTokens(e) == PlaceTokens(p) + [Tok(LPAREN)] + (ExprTokens(x) + [Tok(RPAREN)])
  {
    hide GoodPlace, PlaceTokens, PlaceNodes;
    assert [x][1..] == [];
    assert AllGrouped([]) && ClosedArgs([]) && ArgNodes([]) == 0 && MoreArgTokens([]) == [Tok(RPAREN)];
  }

  lemma {:induction false} UnOf(op: Unop, x: Expr)
    ensures var e := Un(op, x);
            && Grouped(e) == (!x.Bin? && Grouped(x)) && Closed(e) == Closed(x) && Glue(e, []) == Glue(x, [])
            && ExprNodes(e) == ExprNodes(x) + 1 && ExprTokens(e) == [Tok(TokenOfUnop(op))] + ExprTokens(x)
  {
  }

  // ----- which trees are read

  predicate Compares(op: Binop) {
    op in {Equal, Nequal, Lequal, Gequal, Less, Greater, And, Or}
  }

  /** `op2` goes to the right operand of an `op1` before it. */
  predicate Takes(op1: Binop, op2: Binop) {
    || (op1 == Add && op2 != Add)
    || (op1 in {Mul, Div} && Compares(op2))
    || (Compares(op1) && Compares(op2))
  }

  /** Every operation holds what its neighbours leave it, and every name is one. */
  predicate Grouped(e: Expr) {
    match e
    case Ref(p) => GoodPlace(p)
    case Call(p, args) => GoodPlace(p) && AllGrouped(args)
    case Un(_, x) => !x.Bin? && Grouped(x)
    case Bin(op, l, r) =>
      && op != Sub && Grouped(l) && Grouped(r)
      && (l.Bin? ==> !Takes(l.op, op))
      && (r.Bin? ==> Takes(op, r.op))
    case Paren(x) => Grouped(x)
    case _ => true
  }

  predicate AllGrouped(args: seq<Expr>) {
    args != [] ==> Grouped(args[0]) && AllGrouped(args[1..])
  }

  /** An expression may stand alone if and only if it is grouped so, and as the right
      operand of an operator if and only if, besides, that one takes its own. */
  lemma {:induction false} CanonIff(e: Expr)
    ensures Canon(e, 0) <==> Grouped(e)
    ensures Canon(e, 1) <==> Grouped(e)
    ensures forall op: Binop :: op != Sub ==>
              (Canon(e, NextMin(TokenOfBinop(op))) <==> Grouped(e) && (e.Bin? ==> Takes(op, e.op)))
    decreases e
  {
    match e
    case Call(_, args) => AllCanonIff(args);
    case Un(_, x) => CanonIff(x);
    case Bin(op, l, r) =>
      CanonIff(l);
      CanonIff(r);
    case Paren(x) => CanonIff(x);
    case _ =>
  }

  lemma {:induction false} AllCanonIff(args: seq<Expr>)
    ensures CanonArgs(args) <==> AllGrouped(args)
    decreases args
  {
    if args != [] {
      CanonIff(args[0]);
      AllCanonIff(args[1..]);
    }
  }
}

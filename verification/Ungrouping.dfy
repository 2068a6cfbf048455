/** Taking the grouping parentheses out of a stream, without parsing it, and what of the
    stream the arena holds: everything else. */
module Ungrouping {
  import opened Options
  import opened Tokens
  import opened Operators
  import opened Syntax
  import opened Reading
  import opened Closing
  import opened Stripping
  import opened Mending
  import opened Layout
  import opened Sentences

  /** A `(` after one of these opens arguments, parameters or an archetype; any other one
      groups. */
  predicate Calls(i: Item) {
    && i.Tok?
    && (i.t.IDENTIFIER? || i.t.PRIMITIVE? || i.t.INSERT? || i.t.SINGLETON?)
  }

  /** The stream without its grouping parentheses; `calls`: a `(` would not group here;
      `open`: of each `(` that is open, whether it stays. */
  function Ungroup(s: seq<Item>, calls: bool, open: seq<bool>): seq<Item> {
    if s == [] then []
    else if s[0] == Tok(LPAREN) then (if calls then [s[0]] else []) + Ungroup(s[1..], false, open + [calls])
    else if s[0] == Tok(RPAREN) && open != [] then
      (if open[|open| - 1] then [s[0]] else []) + Ungroup(s[1..], false, open[..|open| - 1])
    else [s[0]] + Ungroup(s[1..], Calls(s[0]), open)
  }

  // ----- item by item

  lemma {:induction false} Keep(i: Item, s: seq<Item>, calls: bool, open: seq<bool>)
    requires i != Tok(LPAREN) && i != Tok(RPAREN)
    ensures Ungroup([i] + s, calls, open) == [i] + Ungroup(s, Calls(i), open)
  {
    hide Calls;
    assert ([i] + s)[1..] == s;
  }

  lemma {:induction false} Open(s: seq<Item>, calls: bool, open: seq<bool>)
    ensures Ungroup([Tok(LPAREN)] + s, calls, open)
         == (if calls then [Tok(LPAREN)] else []) + Ungroup(s, false, open + [calls])
  {
    assert ([Tok(LPAREN)] + s)[1..] == s;
  }

  lemma {:induction false} Close(s: seq<Item>, calls: bool, open: seq<bool>, kept: bool)
    ensures Ungroup([Tok(RPAREN)] + s, calls, open + [kept])
         == (if kept then [Tok(RPAREN)] else []) + Ungroup(s, false, open)
  {
    assert ([Tok(RPAREN)] + s)[1..] == s;
    assert (open + [kept])[..|open|] == open;
  }

  /** What stands before makes a difference to a `(` only. */
  lemma {:induction false} Before(s: seq<Item>, calls: bool, open: seq<bool>)
    requires Head(s) != Tok(LPAREN)
    ensures Ungroup(s, calls, open) == Ungroup(s, false, open)
  {
    hide Calls;
  }

  lemma {:induction false} Ahead(i: Item, s: seq<Item>)
    ensures Head([i] + s) == i
  {
  }

  lemma {:induction false} Regroup(a: seq<Item>, b: seq<Item>, c: seq<Item>)
    ensures (a + b) + c == a + (b + c)
  {
  }

  // ----- expressions

  lemma {:induction false} PlaceKeeps(p: Place, rest: seq<Item>, calls: bool, open: seq<bool>)
    ensures Ungroup(PlaceTokens(p) + rest, calls, open) == PlaceTokens(p) + Ungroup(rest, true, open)
    ensures Head(PlaceTokens(p) + rest) != Tok(LPAREN)
    decreases p
  {
    hide Ungroup;
    match p
    case Sym(n) => Keep(Tok(IDENTIFIER(n)), rest, calls, open);
    case Member(q, n) =>
      var link := [Tok(DOT), Tok(IDENTIFIER(n))];
      PlaceKeeps(q, link + rest, calls, open);
      LinkKeeps(n, rest, true, open);
      Regroup(PlaceTokens(q), link, rest);
      Regroup(PlaceTokens(q), link, Ungroup(rest, true, open));
    case Ctor(t) => Keep(Tok(PRIMITIVE(t)), rest, calls, open);
    case Builtin(f) =>
      assert PlaceTokens(p) == [Tok(PRIMITIVE(BuiltinPrimitive(f)))] + [Tok(DOT), Tok(IDENTIFIER(BuiltinName(f)))];
      var link := [Tok(DOT), Tok(IDENTIFIER(BuiltinName(f)))];
      Keep(Tok(PRIMITIVE(BuiltinPrimitive(f))), link + rest, calls, open);
      LinkKeeps(BuiltinName(f), rest, true, open);
      Regroup([Tok(PRIMITIVE(BuiltinPrimitive(f)))], link, rest);
      Regroup([Tok(PRIMITIVE(BuiltinPrimitive(f)))], link, Ungroup(rest, true, open));
  }

  lemma {:induction false} LinkKeeps(n: string, rest: seq<Item>, calls: bool, open: seq<bool>)
    ensures Ungroup([Tok(DOT), Tok(IDENTIFIER(n))] + rest, calls, open)
         == [Tok(DOT), Tok(IDENTIFIER(n))] + Ungroup(rest, true, open)
  {
    hide Ungroup;
    assert [Tok(DOT), Tok(IDENTIFIER(n))] == [Tok(DOT)] + [Tok(IDENTIFIER(n))];
    Keep(Tok(IDENTIFIER(n)), rest, false, open);
    Keep(Tok(DOT), [Tok(IDENTIFIER(n))] + rest, calls, open);
    Regroup([Tok(DOT)], [Tok(IDENTIFIER(n))], rest);
    Regroup([Tok(DOT)], [Tok(IDENTIFIER(n))], Ungroup(rest, true, open));
  }

  lemma {:induction false} ArchetypeKeeps(i: Item, n: string, rest: seq<Item>, calls: bool, open: seq<bool>)
    requires i == Tok(INSERT) || i == Tok(SINGLETON)
    ensures var all := [i, Tok(LPAREN), Tok(IDENTIFIER(n)), Tok(RPAREN)];
            Ungroup(all + rest, calls, open) == all + Ungroup(rest, false, open)
  {
    hide Ungroup;
    var last := [Tok(RPAREN)] + rest;
    var name := [Tok(IDENTIFIER(n))] + last;
    Keep(i, [Tok(LPAREN)] + name, calls, open);
    Open(name, true, open);
    Keep(Tok(IDENTIFIER(n)), last, false, open + [true]);
    Close(rest, true, open, true);
    assert [i, Tok(LPAREN), Tok(IDENTIFIER(n)), Tok(RPAREN)] + rest == [i] + ([Tok(LPAREN)] + name);
  }

  /** An expression where one may stand: not after what calls. */
  lemma {:induction false} ExprUngroups(e: Expr, rest: seq<Item>, open: seq<bool>)
    requires Head(rest) != Tok(LPAREN)
    ensures Ungroup(ExprTokens(e) + rest, false, open) == ExprTokens(Strip(e)) + Ungroup(rest, false, open)
    decreases e, 0
  {
    hide Ungroup, ArgTokens, PlaceTokens, StripArgs, TokenOfBinop;
    var after := Ungroup(rest, false, open);
    match e
    case Lit(l) =>
      Keep(Tok(LITERAL(l)), rest, false, open);
    case Ref(p) =>
      PlaceKeeps(p, rest, false, open);
      Before(rest, true, open);
    case Call(p, args) => CallUngroups(p, args, rest, open);
    case Insert(n, _) => ArchetypeKeeps(Tok(INSERT), n, rest, false, open);
    case Singleton(n, _) => ArchetypeKeeps(Tok(SINGLETON), n, rest, false, open);
    case Un(op, x) =>
      Regroup([Tok(TokenOfUnop(op))], ExprTokens(x), rest);
      Keep(Tok(TokenOfUnop(op)), ExprTokens(x) + rest, false, open);
      ExprUngroups(x, rest, open);
      Regroup([Tok(TokenOfUnop(op))], ExprTokens(Strip(x)), after);
    case Bin(op, l, r) =>
      var sign := [Tok(TokenOfBinop(op))];
      SignKept(op);
      Regroup(ExprTokens(l), sign + ExprTokens(r), rest);
      Regroup(sign, ExprTokens(r), rest);
      Ahead(sign[0], ExprTokens(r) + rest);
      ExprUngroups(l, sign + (ExprTokens(r) + rest), open);
      Keep(sign[0], ExprTokens(r) + rest, false, open);
      ExprUngroups(r, rest, open);
      Regroup(ExprTokens(Strip(l)), sign + ExprTokens(Strip(r)), after);
      Regroup(sign, ExprTokens(Strip(r)), after);
    case Paren(x) => ParenUngroups(x, rest, open);
  }

  lemma {:induction false} SignKept(op: Binop)
    ensures var i := Tok(TokenOfBinop(op)); i != Tok(LPAREN) && i != Tok(RPAREN) && !Calls(i)
  {
  }

  lemma {:induction false} ParenUngroups(x: Expr, rest: seq<Item>, open: seq<bool>)
    requires Head(rest) != Tok(LPAREN)
    ensures Ungroup(ExprTokens(Paren(x)) + rest, false, open) == ExprTokens(Strip(x)) + Ungroup(rest, false, open)
    decreases x, 1
  {
    hide Ungroup, Strip;
    var last := [Tok(RPAREN)] + rest;
    Regroup([Tok(LPAREN)], ExprTokens(x) + [Tok(RPAREN)], rest);
    Regroup(ExprTokens(x), [Tok(RPAREN)], rest);
    Open(ExprTokens(x) + last, false, open);
    Ahead(Tok(RPAREN), rest);
    ExprUngroups(x, last, open + [false]);
    Close(rest, false, open, false);
  }

  lemma {:induction false} CallUngroups(p: Place, args: seq<Expr>, rest: seq<Item>, open: seq<bool>)
    requires Head(rest) != Tok(LPAREN)
    ensures Ungroup(PlaceTokens(p) + [Tok(LPAREN)] + ArgTokens(args) + rest, false, open)
         == PlaceTokens(p) + [Tok(LPAREN)] + ArgTokens(StripArgs(args)) + Ungroup(rest, false, open)
    decreases args, 2
  {
    hide Ungroup, PlaceTokens, ArgTokens, StripArgs;
    var after := Ungroup(rest, false, open);
    CallRegroup(PlaceTokens(p), ArgTokens(args), rest);
    CallRegroup(PlaceTokens(p), ArgTokens(StripArgs(args)), after);
    PlaceKeeps(p, [Tok(LPAREN)] + (ArgTokens(args) + rest), false, open);
    Open(ArgTokens(args) + rest, true, open);
    ArgsUngroup(args, rest, open);
  }

  lemma {:induction false} CallRegroup(p: seq<Item>, args: seq<Item>, rest: seq<Item>)
    ensures p + [Tok(LPAREN)] + args + rest == p + ([Tok(LPAREN)] + (args + rest))
  {
  }

  lemma {:induction false} ArgsUngroup(args: seq<Expr>, rest: seq<Item>, open: seq<bool>)
    ensures Ungroup(ArgTokens(args) + rest, false, open + [true])
         == ArgTokens(StripArgs(args)) + Ungroup(rest, false, open)
    decreases args, 1
  {
    hide Ungroup, ExprTokens, MoreArgTokens, Strip;
    var after := Ungroup(rest, false, open);
    if args == [] {
      Close(rest, false, open, true);
    } else {
      var more := MoreArgTokens(args[1..]);
      assert StripArgs(args)[0] == Strip(args[0]) && StripArgs(args)[1..] == StripArgs(args[1..]);
      Regroup(ExprTokens(args[0]), more, rest);
      MoreArgsUngroup(args[1..], rest, open);
      ExprUngroups(args[0], more + rest, open + [true]);
      Regroup(ExprTokens(Strip(args[0])), MoreArgTokens(StripArgs(args[1..])), after);
    }
  }

  lemma {:induction false} MoreArgsUngroup(args: seq<Expr>, rest: seq<Item>, open: seq<bool>)
    ensures Ungroup(MoreArgTokens(args) + rest, false, open + [true])
         == MoreArgTokens(StripArgs(args)) + Ungroup(rest, false, open)
    ensures Head(MoreArgTokens(args) + rest) != Tok(LPAREN)
    decreases args, 0
  {
    hide Ungroup, ExprTokens, Strip;
    var after := Ungroup(rest, false, open);
    if args == [] {
      Close(rest, false, open, true);
    } else {
      var x, more := ExprTokens(args[0]), MoreArgTokens(args[1..]);
      var y, less := ExprTokens(Strip(args[0])), MoreArgTokens(StripArgs(args[1..]));
      assert StripArgs(args)[0] == Strip(args[0]) && StripArgs(args)[1..] == StripArgs(args[1..]);
      Regroup([Tok(COMMA)], x + more, rest);
      Regroup(x, more, rest);
      Keep(Tok(COMMA), x + (more + rest), false, open + [true]);
      MoreArgsUngroup(args[1..], rest, open);
      ExprUngroups(args[0], more + rest, open + [true]);
      Regroup([Tok(COMMA)], y + less, after);
      Regroup(y, less, after);
    }
  }

  // ----- statements

  lemma {:induction false} OptTypeUngroups(ty: Option<VarType>, rest: seq<Item>, calls: bool, open: seq<bool>)
    requires Head(rest) != Tok(LPAREN)
    ensures Ungroup(OptTypeTokens(ty) + rest, calls, open) == OptTypeTokens(ty) + Ungroup(rest, false, open)
    ensures Head(OptTypeTokens(ty) + rest) != Tok(LPAREN)
  {
    hide Ungroup;
    match ty
    case None =>
      assert OptTypeTokens(ty) + rest == rest;
      Before(rest, calls, open);
    case Some(t) => TypeUngroups(t, rest, calls, open);
  }

  lemma {:induction false} TypeUngroups(ty: VarType, rest: seq<Item>, calls: bool, open: seq<bool>)
    requires Head(rest) != Tok(LPAREN)
    ensures Ungroup(TypeTokens(ty) + rest, calls, open) == TypeTokens(ty) + Ungroup(rest, false, open)
    ensures Head(TypeTokens(ty) + rest) == Tok(COLON)
  {
    hide Ungroup;
    var colon, i := [Tok(COLON)], TypeTokens(ty)[1];
    assert TypeTokens(ty) == colon + [i];
    Regroup(colon, [i], rest);
    Keep(colon[0], [i] + rest, calls, open);
    Keep(i, rest, false, open);
    Before(rest, Calls(i), open);
    Regroup(colon, [i], Ungroup(rest, false, open));
  }

  lemma {:induction false} ParamsUngroup(ps: seq<Param>, rest: seq<Item>, open: seq<bool>)
    requires ps != []
    ensures Ungroup(ParamTokens(ps) + rest, false, open + [true]) == ParamTokens(ps) + Ungroup(rest, false, open)
    decreases ps
  {
    hide Ungroup, TypeTokens, ParamTokens;
    var n, ty, more := [Tok(IDENTIFIER(ps[0].name))], TypeTokens(ps[0].ty), ParamMore(ps);
    ParamsAre(ps);
    MoreParamsUngroup(ps, rest, open);
    Regroup(n, ty + more, rest);
    Regroup(ty, more, rest);
    Keep(n[0], ty + (more + rest), false, open + [true]);
    TypeUngroups(ps[0].ty, more + rest, true, open + [true]);
    Regroup(n, ty + more, Ungroup(rest, false, open));
    Regroup(ty, more, Ungroup(rest, false, open));
  }

  function ParamMore(ps: seq<Param>): seq<Item>
    requires ps != []
  {
    if |ps| == 1 then [Tok(RPAREN)] else [Tok(COMMA)] + ParamTokens(ps[1..])
  }

  lemma {:induction false} ParamsAre(ps: seq<Param>)
    requires ps != []
    ensures ParamTokens(ps) == [Tok(IDENTIFIER(ps[0].name))] + (TypeTokens(ps[0].ty) + ParamMore(ps))
  {
    hide TypeTokens;
  }

  lemma {:induction false} MoreParamsUngroup(ps: seq<Param>, rest: seq<Item>, open: seq<bool>)
    requires ps != []
    ensures Ungroup(ParamMore(ps) + rest, false, open + [true]) == ParamMore(ps) + Ungroup(rest, false, open)
    ensures Head(ParamMore(ps) + rest) != Tok(LPAREN)
    decreases ps, 0
  {
    hide Ungroup, ParamTokens;
    if |ps| == 1 {
      Close(rest, false, open, true);
    } else {
      Regroup([Tok(COMMA)], ParamTokens(ps[1..]), rest);
      Keep(Tok(COMMA), ParamTokens(ps[1..]) + rest, false, open + [true]);
      ParamsUngroup(ps[1..], rest, open);
      Regroup([Tok(COMMA)], ParamTokens(ps[1..]), Ungroup(rest, false, open));
    }
  }

  /** A keyword or sign, then something. */
  lemma {:induction false} After(i: Item, a: seq<Item>, b: seq<Item>, rest: seq<Item>, open: seq<bool>)
    requires i != Tok(LPAREN) && i != Tok(RPAREN) && !Calls(i)
    requires Ungroup(a + rest, false, open) == b + Ungroup(rest, false, open)
    ensures Ungroup([i] + a + rest, false, open) == [i] + b + Ungroup(rest, false, open)
    ensures Head([i] + a + rest) == i
  {
    hide Ungroup, Calls;
    Regroup([i], a, rest);
    Regroup([i], b, Ungroup(rest, false, open));
    Keep(i, a + rest, false, open);
  }

  /** One part, then another. */
  lemma {:induction false} Joined(a: seq<Item>, b: seq<Item>, c: seq<Item>, d: seq<Item>, rest: seq<Item>,
      open: seq<bool>)
    requires Ungroup(a + (c + rest), false, open) == b + Ungroup(c + rest, false, open)
    requires Ungroup(c + rest, false, open) == d + Ungroup(rest, false, open)
    ensures Ungroup(a + c + rest, false, open) == b + d + Ungroup(rest, false, open)
  {
    hide Ungroup;
    Regroup(a, c, rest);
    Regroup(b, d, Ungroup(rest, false, open));
  }

  /** An expression, then a keyword, then something. */
  lemma {:induction false} ExprThen(e: Expr, i: Item, a: seq<Item>, b: seq<Item>, rest: seq<Item>, open: seq<bool>)
    requires i != Tok(LPAREN) && i != Tok(RPAREN) && !Calls(i)
    requires Ungroup(a + rest, false, open) == b + Ungroup(rest, false, open)
    ensures Ungroup(ExprTokens(e) + ([i] + a) + rest, false, open)
         == ExprTokens(Strip(e)) + ([i] + b) + Ungroup(rest, false, open)
  {
    hide Ungroup, Calls, ExprTokens, Strip;
    After(i, a, b, rest, open);
    ExprUngroups(e, [i] + a + rest, open);
    Joined(ExprTokens(e), ExprTokens(Strip(e)), [i] + a, [i] + b, rest, open);
  }

  lemma {:induction false} StmtUngroups(st: Stmt, rest: seq<Item>, calls: bool, open: seq<bool>)
    requires Head(rest) != Tok(LPAREN)
    ensures Ungroup(StmtTokens(st) + rest, calls, open) == StmtTokens(StripStmt(st)) + Ungroup(rest, false, open)
    ensures Head(StmtTokens(st) + rest) != Tok(LPAREN)
    decreases st, 1
  {
    hide Ungroup, ExprTokens, PlaceTokens, ArgTokens, BlockTokens, BranchTokens, ElseTokens, ParamTokens, OptTypeTokens,
      Strip, StripArgs, StripBlock, StripBranches, StripElse, Calls;
    StmtBegins(st, rest);
    Before(StmtTokens(st) + rest, calls, open);
    match st
    case Let(n, ty, e) => LetUngroups(n, ty, e, rest, open);
    case Assign(p, e) => AssignUngroups(p, e, rest, open);
    case Do(p, args) => CallUngroups(p, args, rest, open);
    case Return(e) =>
      Keyword(RETURN);
      ExprUngroups(e, rest, open);
      After(Tok(RETURN), ExprTokens(e), ExprTokens(Strip(e)), rest, open);
    case If(bs, els) => IfUngroups(bs, els, rest, open);
    case While(c, b) =>
      Keyword(WHILE);
      Keyword(DO);
      BodyUngroups(b, rest, open);
      var body, stripped := BlockTokens(b) + [Tok(END)], BlockTokens(StripBlock(b)) + [Tok(END)];
      ExprThen(c, Tok(DO), body, stripped, rest, open);
      After(Tok(WHILE), ExprTokens(c) + ([Tok(DO)] + body), ExprTokens(Strip(c)) + ([Tok(DO)] + stripped), rest, open);
    case Fun(n, ps, ret, b) => FunUngroups(n, ps, ret, b, rest, open);
  }

  lemma {:induction false} Keyword(t: Token)
    requires t in {LET, ASSIGN, RETURN, IF, THEN, ELIF, ELSE, WHILE, DO, END, FUNCTION}
    ensures Tok(t) != Tok(LPAREN) && Tok(t) != Tok(RPAREN) && !Calls(Tok(t))
  {
  }

  lemma {:induction false} StmtBegins(st: Stmt, rest: seq<Item>)
    ensures Head(StmtTokens(st) + rest) != Tok(LPAREN)
  {
    hide PlaceTokens, ExprTokens, ArgTokens, BlockTokens, BranchTokens, ElseTokens, ParamTokens, OptTypeTokens;
    if st.Assign? { PlaceBegins(st.target); }
    if st.Do? { PlaceBegins(st.callee); }
  }

  lemma {:induction false} PlaceBegins(p: Place)
    ensures PlaceTokens(p) != [] && PlaceTokens(p)[0] != Tok(LPAREN)
    decreases p
  {
    if p.Member? { PlaceBegins(p.of); }
  }

  lemma {:induction false} LetUngroups(n: string, ty: Option<VarType>, e: Expr, rest: seq<Item>, open: seq<bool>)
    requires Head(rest) != Tok(LPAREN)
    ensures Ungroup(StmtTokens(Let(n, ty, e)) + rest, false, open)
         == StmtTokens(Let(n, ty, Strip(e))) + Ungroup(rest, false, open)
  {
    hide Ungroup, ExprTokens, OptTypeTokens, Strip, Calls;
    var init, stripped := [Tok(ASSIGN)] + ExprTokens(e), [Tok(ASSIGN)] + ExprTokens(Strip(e));
    var tail := OptTypeTokens(ty) + init + rest;
    Keyword(ASSIGN);
    Keyword(LET);
    ExprUngroups(e, rest, open);
    After(Tok(ASSIGN), ExprTokens(e), ExprTokens(Strip(e)), rest, open);
    OptTypeUngroups(ty, init + rest, true, open);
    OptTypeUngroups(ty, init + rest, false, open);
    Joined(OptTypeTokens(ty), OptTypeTokens(ty), init, stripped, rest, open);
    LetRegroup(n, OptTypeTokens(ty) + init, rest);
    LetRegroup(n, OptTypeTokens(ty) + stripped, Ungroup(rest, false, open));
    Regroup(OptTypeTokens(ty), init, rest);
    Keep(Tok(LET), [Tok(IDENTIFIER(n))] + tail, false, open);
    Keep(Tok(IDENTIFIER(n)), tail, false, open);
    Before(tail, Calls(Tok(IDENTIFIER(n))), open);
  }

  lemma {:induction false} LetRegroup(n: string, a: seq<Item>, b: seq<Item>)
    ensures [Tok(LET), Tok(IDENTIFIER(n))] + a + b == [Tok(LET)] + ([Tok(IDENTIFIER(n))] + (a + b))
  {
  }

  lemma {:induction false} AssignUngroups(p: Place, e: Expr, rest: seq<Item>, open: seq<bool>)
    requires Head(rest) != Tok(LPAREN)
    ensures Ungroup(StmtTokens(Assign(p, e)) + rest, false, open)
         == StmtTokens(Assign(p, Strip(e))) + Ungroup(rest, false, open)
  {
    hide Ungroup, ExprTokens, PlaceTokens, Strip, Calls;
    var value, stripped := [Tok(ASSIGN)] + ExprTokens(e), [Tok(ASSIGN)] + ExprTokens(Strip(e));
    Keyword(ASSIGN);
    ExprUngroups(e, rest, open);
    After(Tok(ASSIGN), ExprTokens(e), ExprTokens(Strip(e)), rest, open);
    PlaceKeeps(p, value + rest, false, open);
    Before(value + rest, true, open);
    Joined(PlaceTokens(p), PlaceTokens(p), value, stripped, rest, open);
  }

  lemma {:induction false} BodyUngroups(b: seq<Stmt>, rest: seq<Item>, open: seq<bool>)
    ensures Ungroup(BlockTokens(b) + [Tok(END)] + rest, false, open)
         == BlockTokens(StripBlock(b)) + [Tok(END)] + Ungroup(rest, false, open)
    ensures Head(BlockTokens(b) + [Tok(END)] + rest) != Tok(LPAREN)
    decreases b, 2
  {
    hide Ungroup, BlockTokens, StripBlock, Calls;
    Keyword(END);
    Ahead(Tok(END), rest);
    Keep(Tok(END), rest, false, open);
    Regroup(BlockTokens(b), [Tok(END)], rest);
    BlockUngroups(b, [Tok(END)] + rest, false, open);
    Joined(BlockTokens(b), BlockTokens(StripBlock(b)), [Tok(END)], [Tok(END)], rest, open);
  }

  lemma {:induction false} BlockUngroups(b: seq<Stmt>, rest: seq<Item>, calls: bool, open: seq<bool>)
    requires Head(rest) != Tok(LPAREN)
    ensures Ungroup(BlockTokens(b) + rest, calls, open) == BlockTokens(StripBlock(b)) + Ungroup(rest, false, open)
    ensures Head(BlockTokens(b) + rest) != Tok(LPAREN)
    decreases b, 0
  {
    hide Ungroup, StmtTokens, StripStmt, Calls;
    if b == [] {
      assert BlockTokens(b) + rest == rest;
      Before(rest, calls, open);
    } else {
      var more, after := BlockTokens(b[1..]), Ungroup(rest, false, open);
      assert StripBlock(b)[0] == StripStmt(b[0]) && StripBlock(b)[1..] == StripBlock(b[1..]);
      BlockUngroups(b[1..], rest, false, open);
      StmtUngroups(b[0], more + rest, calls, open);
      Regroup(StmtTokens(b[0]), more, rest);
      Regroup(StmtTokens(StripStmt(b[0])), BlockTokens(StripBlock(b[1..])), after);
    }
  }

  lemma {:induction false} FunUngroups(n: string, ps: seq<Param>, ret: Option<VarType>, b: seq<Stmt>, rest: seq<Item>,
      open: seq<bool>)
    ensures Ungroup(StmtTokens(Fun(n, ps, ret, b)) + rest, false, open)
         == StmtTokens(Fun(n, ps, ret, StripBlock(b))) + Ungroup(rest, false, open)
    decreases b, 3
  {
    hide Ungroup, BlockTokens, ParamTokens, OptTypeTokens, StripBlock, Calls;
    var body, stripped := BlockTokens(b) + [Tok(END)], BlockTokens(StripBlock(b)) + [Tok(END)];
    var args := if ps == [] then [Tok(RPAREN)] else ParamTokens(ps);
    var after := Ungroup(rest, false, open);
    BodyUngroups(b, rest, open);
    OptTypeUngroups(ret, body + rest, false, open);
    Joined(OptTypeTokens(ret), OptTypeTokens(ret), body, stripped, rest, open);
    ArgsGo(ps, OptTypeTokens(ret) + body + rest, open);
    FunRegroup(n, args, OptTypeTokens(ret) + body, rest);
    FunRegroup(n, args, OptTypeTokens(ret) + stripped, after);
    FunHead(n, args + (OptTypeTokens(ret) + body + rest), open);
  }

  lemma {:induction false} ArgsGo(ps: seq<Param>, rest: seq<Item>, open: seq<bool>)
    ensures var args := if ps == [] then [Tok(RPAREN)] else ParamTokens(ps);
            Ungroup(args + rest, false, open + [true]) == args + Ungroup(rest, false, open)
  {
    hide Ungroup, ParamTokens;
    if ps == [] {
      Close(rest, false, open, true);
    } else {
      ParamsUngroup(ps, rest, open);
    }
  }

  lemma {:induction false} FunHead(n: string, s: seq<Item>, open: seq<bool>)
    ensures Ungroup([Tok(FUNCTION)] + ([Tok(IDENTIFIER(n))] + ([Tok(LPAREN)] + s)), false, open)
         == [Tok(FUNCTION)] + ([Tok(IDENTIFIER(n))] + ([Tok(LPAREN)] + Ungroup(s, false, open + [true])))
  {
    hide Ungroup;
    Open(s, true, open);
    Keep(Tok(IDENTIFIER(n)), [Tok(LPAREN)] + s, false, open);
    Keep(Tok(FUNCTION), [Tok(IDENTIFIER(n))] + ([Tok(LPAREN)] + s), false, open);
  }

  lemma {:induction false} FunRegroup(n: string, a: seq<Item>, b: seq<Item>, c: seq<Item>)
    ensures [Tok(FUNCTION), Tok(IDENTIFIER(n)), Tok(LPAREN)] + (a + b) + c
         == [Tok(FUNCTION)] + ([Tok(IDENTIFIER(n))] + ([Tok(LPAREN)] + (a + (b + c))))
  {
  }

  lemma {:induction false} IfUngroups(bs: seq<Branch>, els: Otherwise, rest: seq<Item>, open: seq<bool>)
    ensures Ungroup(StmtTokens(If(bs, els)) + rest, false, open)
         == StmtTokens(StripStmt(If(bs, els))) + Ungroup(rest, false, open)
    decreases If(bs, els), 0
  {
    hide Ungroup, BranchTokens, ElseTokens, StripBranches, StripElse, Calls;
    var all := (if bs == [] then [] else BranchTokens(bs)) + ElseTokens(els);
    var cs := StripBranches(bs);
    var less := (if cs == [] then [] else BranchTokens(cs)) + ElseTokens(StripElse(els));
    Keyword(IF);
    ElseUngroups(els, rest, open);
    SameBranches(bs);
    if bs == [] {
      assert all == ElseTokens(els) && less == ElseTokens(StripElse(els));
    } else {
      BranchesUngroup(bs, ElseTokens(els) + rest, open);
      Joined(BranchTokens(bs), BranchTokens(cs), ElseTokens(els), ElseTokens(StripElse(els)), rest, open);
    }
    After(Tok(IF), all, less, rest, open);
  }

  lemma {:induction false} SameBranches(bs: seq<Branch>)
    ensures StripBranches(bs) == [] <==> bs == []
    ensures bs != [] ==> StripBranches(bs)[0] == StripBranch(bs[0]) && StripBranches(bs)[1..] == StripBranches(bs[1..])
  {
    hide Strip, StripBlock;
  }

  lemma {:induction false} ElseUngroups(els: Otherwise, rest: seq<Item>, open: seq<bool>)
    ensures Ungroup(ElseTokens(els) + rest, false, open) == ElseTokens(StripElse(els)) + Ungroup(rest, false, open)
    ensures Head(ElseTokens(els) + rest) != Tok(LPAREN)
    decreases els, 0
  {
    hide Ungroup, BlockTokens, StripBlock, Calls;
    Keyword(END);
    Keyword(ELSE);
    match els
    case NoElse => Keep(Tok(END), rest, false, open);
    case Else(b) =>
      BodyUngroups(b, rest, open);
      After(Tok(ELSE), BlockTokens(b) + [Tok(END)], BlockTokens(StripBlock(b)) + [Tok(END)], rest, open);
  }

  lemma {:induction false} BranchesUngroup(bs: seq<Branch>, rest: seq<Item>, open: seq<bool>)
    requires bs != [] && Head(rest) != Tok(LPAREN)
    ensures StripBranches(bs) != []
    ensures Ungroup(BranchTokens(bs) + rest, false, open)
         == BranchTokens(StripBranches(bs)) + Ungroup(rest, false, open)
    decreases bs, 0
  {
    hide Ungroup, ExprTokens, BlockTokens, Strip, StripBlock, MoreBranchTokens, StripBranches, Calls;
    var b, more, less := bs[0].body, MoreBranchTokens(bs[1..]), MoreBranchTokens(StripBranches(bs[1..]));
    SameBranches(bs);
    Keyword(THEN);
    MoreBranchesUngroup(bs[1..], rest, open);
    BlockUngroups(b, more + rest, false, open);
    Joined(BlockTokens(b), BlockTokens(StripBlock(b)), more, less, rest, open);
    ExprThen(bs[0].cond, Tok(THEN), BlockTokens(b) + more, BlockTokens(StripBlock(b)) + less, rest, open);
  }

  lemma {:induction false} MoreBranchesUngroup(bs: seq<Branch>, rest: seq<Item>, open: seq<bool>)
    requires Head(rest) != Tok(LPAREN)
    ensures Ungroup(MoreBranchTokens(bs) + rest, false, open)
         == MoreBranchTokens(StripBranches(bs)) + Ungroup(rest, false, open)
    ensures Head(MoreBranchTokens(bs) + rest) != Tok(LPAREN)
    decreases bs, 1
  {
    hide Ungroup, BranchTokens, StripBranches, Calls;
    SameBranches(bs);
    Keyword(ELIF);
    if bs == [] {
      assert MoreBranchTokens(bs) + rest == rest;
    } else {
      BranchesUngroup(bs, rest, open);
      After(Tok(ELIF), BranchTokens(bs), BranchTokens(StripBranches(bs)), rest, open);
    }
  }

  // ----- the arena holds the stream

  /** What the nodes of the arena say is the stream that was read, without its grouping
      parentheses. */
  lemma {:induction false} ArenaSays(s: seq<Item>, room: nat)
    requires Proper(s) && WellClosed(s) && ReadModule(s, room).Ok?
    ensures Sentence(LayModule(ReadModule(s, room).value)) == Ungroup(s, false, [])
  {
    hide Sentence, LayModule, ReadModule, WellClosed, Proper, Ungroup, BlockTokens, StripBlock;
    var b := ReadModule(s, room).value;
    MendedSpells(s, room);
    ModuleSays(b);
    BlockUngroups(b, [], false, []);
    assert BlockTokens(b) + [] == s && BlockTokens(StripBlock(b)) + [] == BlockTokens(StripBlock(b));
    NothingLeft();
  }

  lemma {:induction false} NothingLeft()
    ensures Ungroup([], false, []) == []
  {
  }

  /** The same of every stream that is accepted, with its missing `)` put in. */
  lemma {:induction false} AcceptedSays(s: seq<Item>, room: nat)
    requires Proper(s) && ReadModule(s, room).Ok?
    ensures Sentence(LayModule(ReadModule(s, room).value)) == Ungroup(Mend(s), false, [])
  {
    hide Sentence, LayModule, ReadModule, WellClosed, Proper, Ungroup, Mend;
    MendedArena(s, room);
    MendCloses(s);
    MendProper(s);
    ArenaSays(Mend(s), room);
  }
}

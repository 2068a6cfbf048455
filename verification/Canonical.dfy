/** The parser is complete for canonical trees: it reads back what they spell. */
module Canonical {
  import opened Options
  import opened Tokens
  import opened Operators
  import opened Syntax
  import opened Reading

  /** The items after `e` do not lengthen its last name into a member or a call. */
  predicate Glue(e: Expr, rest: seq<Item>) {
    match e
    case Ref(_) => Head(rest).Tok? && Head(rest).t != DOT && Head(rest).t != LPAREN
    case Un(_, x) => Glue(x, rest)
    case Bin(_, _, r) => Glue(r, rest)
    case _ => true
  }

  /** No operator of precedence `min` or more comes next. */
  predicate Stops(min: nat, rest: seq<Item>) {
    Head(rest).Tok? && !(IsBinop(Head(rest).t) && Precedence(Head(rest).t) >= min)
  }

  /** Nothing in `rest` can extend an expression read at `min`. */
  predicate Follows(e: Expr, min: nat, rest: seq<Item>) {
    Glue(e, rest) && Stops(min, rest)
  }

  // ----- expressions

  lemma {:induction false} LinkReads(p: Place, n: string, rest: seq<Item>, room: nat)
    requires RootedInName(p) && room > 0
    ensures ReadChain([Tok(DOT), Tok(IDENTIFIER(n))] + rest, p, room) == ReadChain(rest, Member(p, n), room - 1)
  {
    var link := [Tok(DOT), Tok(IDENTIFIER(n))] + rest;
    assert link[1..] == [Tok(IDENTIFIER(n))] + rest;
    assert link[1..][1..] == rest;
    assert ReadLink(link, p, room) == Ok(Member(p, n), rest, room - 1);
  }

  lemma {:induction false} PlaceReads(p: Place, rest: seq<Item>, room: nat)
    requires RootedInName(p) && PlaceNodes(p) <= room
    ensures ReadPlace(PlaceTokens(p) + rest, room) == ReadChain(rest, p, room - PlaceNodes(p))
  {
    hide ReadExpr, Climb, ReadArgs, ReadMoreArgs, TryCall, ReadChain;
    match p
    case Sym(n) =>
      assert (PlaceTokens(p) + rest)[1..] == rest;
    case Member(q, n) =>
      hide ReadPlace;
      var link := [Tok(DOT), Tok(IDENTIFIER(n))];
      assert PlaceTokens(p) + rest == PlaceTokens(q) + (link + rest);
      PlaceReads(q, link + rest, room);
      LinkReads(q, n, rest, room - PlaceNodes(q));
  }

  lemma {:induction false} PlaceStops(p: Place, rest: seq<Item>, room: nat)
    requires RootedInName(p) && PlaceNodes(p) <= room
    requires Head(rest).Tok? && Head(rest).t != DOT
    ensures ReadPlace(PlaceTokens(p) + rest, room) == Ok(p, rest, room - PlaceNodes(p))
  {
    PlaceReads(p, rest, room);
  }

  lemma {:induction false} PlaceTokensStart(p: Place)
    ensures PlaceTokens(p) != []
    ensures RootedInName(p) ==> PlaceTokens(p)[0].Tok? && PlaceTokens(p)[0].t.IDENTIFIER?
    ensures p.Ctor? || p.Builtin? ==> PlaceTokens(p)[0].Tok? && PlaceTokens(p)[0].t.PRIMITIVE?
  {
    if p.Member? { PlaceTokensStart(p.of); }
  }

  lemma {:induction false} ChainEnds(p: Place, rest: seq<Item>, room: nat)
    requires Head(rest).Tok? && Head(rest).t != DOT
    ensures ReadChain(rest, p, room) == Ok(p, rest, room)
  {
  }

  lemma {:induction false} NameAtom(s: seq<Item>, room: nat)
    requires Head(s).Tok? && Head(s).t.IDENTIFIER? && ReadPlace(s, room).Ok?
    ensures var r := ReadPlace(s, room); ReadPrimary(s, room) == TryCall(r.rest, r.value, r.room)
  {
    hide ReadPlace, TryCall, ReadExpr;
  }

  lemma {:induction false} PrimAtom(prim: Primitive, tail: seq<Item>, room: nat)
    requires room > 0 && ReadChain(tail, Ctor(prim), room - 1).Ok?
    ensures var r := ReadChain(tail, Ctor(prim), room - 1);
            ReadPrimary([Tok(PRIMITIVE(prim))] + tail, room) == TryCall(r.rest, r.value, r.room)
  {
    hide ReadChain, TryCall, ReadExpr;
    assert ([Tok(PRIMITIVE(prim))] + tail)[1..] == tail;
  }

  lemma {:induction false} BuiltinReads(f: BuiltinFunction, rest: seq<Item>, room: nat)
    ensures ReadChain([Tok(DOT), Tok(IDENTIFIER(BuiltinName(f)))] + rest, Ctor(BuiltinPrimitive(f)), room)
         == ReadChain(rest, Builtin(f), room)
  {
    var link := [Tok(DOT), Tok(IDENTIFIER(BuiltinName(f)))] + rest;
    assert link[1..] == [Tok(IDENTIFIER(BuiltinName(f)))] + rest;
    assert link[1..][1..] == rest;
    assert ReadLink(link, Ctor(BuiltinPrimitive(f)), room) == Ok(Builtin(f), rest, room);
  }

  /** A name or builtin with nothing after it that continues the chain, then `TryCall`. */
  lemma {:induction false} AtomPlace(p: Place, rest: seq<Item>, room: nat)
    requires GoodPlace(p) && PlaceNodes(p) <= room
    requires Head(rest).Tok? && Head(rest).t != DOT
    ensures ReadPrimary(PlaceTokens(p) + rest, room) == TryCall(rest, p, room - PlaceNodes(p))
  {
    hide ReadPrimary, ReadAtom, ReadChain, TryCall, ReadPlace;
    ChainEnds(p, rest, room - PlaceNodes(p));
    match p
    case Ctor(t) =>
      PrimAtom(t, rest, room);
    case Builtin(f) =>
      var link := [Tok(DOT), Tok(IDENTIFIER(BuiltinName(f)))] + rest;
      assert PlaceTokens(p) + rest == [Tok(PRIMITIVE(BuiltinPrimitive(f)))] + link;
      BuiltinReads(f, rest, room - 1);
      PrimAtom(BuiltinPrimitive(f), link, room);
    case _ =>
      PlaceTokensStart(p);
      PlaceStops(p, rest, room);
      assert (PlaceTokens(p) + rest)[0] == PlaceTokens(p)[0];
      NameAtom(PlaceTokens(p) + rest, room);
  }

  lemma {:induction false} ExprTokensStart(e: Expr)
    requires Canon(e, 0)
    ensures ExprTokens(e) != [] && ExprTokens(e)[0].Tok? && ExprTokens(e)[0].t != RPAREN
  {
    match e
    case Ref(p) => PlaceTokensStart(p);
    case Call(p, _) => PlaceTokensStart(p);
    case Bin(_, l, _) => ExprTokensStart(l);
    case _ =>
  }

  lemma {:induction false} CanonLower(e: Expr, min: nat, low: nat)
    requires Canon(e, min) && low <= min
    ensures Canon(e, low)
  {
    if e.Bin? { CanonLower(e.left, min, low); }
  }

  lemma {:induction false} LitReads(l: Literal, rest: seq<Item>, room: nat)
    requires room > 0
    ensures ReadPrimary([Tok(LITERAL(l))] + rest, room) == Ok(Lit(l), rest, room - 1)
  {
    assert ([Tok(LITERAL(l))] + rest)[1..] == rest;
  }

  lemma {:induction false} UnReads(op: Unop, tail: seq<Item>, room: nat)
    requires ReadPrimary(tail, room).Ok? && ReadPrimary(tail, room).room > 0
    ensures var r := ReadPrimary(tail, room);
            ReadPrimary([Tok(TokenOfUnop(op))] + tail, room) == Ok(Un(op, r.value), r.rest, r.room - 1)
  {
    hide ReadExpr, ReadAtom;
    assert ([Tok(TokenOfUnop(op))] + tail)[1..] == tail;
  }

  lemma {:induction false} ParenReads(tail: seq<Item>, rest: seq<Item>, room: nat)
    requires ReadExpr(tail, 1, room).Ok? && ReadExpr(tail, 1, room).rest == [Tok(RPAREN)] + rest
    ensures var r := ReadExpr(tail, 1, room);
            ReadPrimary([Tok(LPAREN)] + tail, room) == Ok(Paren(r.value), rest, r.room)
  {
    hide ReadExpr, ReadAtom;
    assert ([Tok(LPAREN)] + tail)[1..] == tail && ([Tok(RPAREN)] + rest)[1..] == rest;
  }

  lemma {:induction false} UnSpelled(op: Unop, x: Expr, rest: seq<Item>)
    ensures ExprTokens(Un(op, x)) + rest == [Tok(TokenOfUnop(op))] + (ExprTokens(x) + rest)
  {
    hide TokenOfUnop;
  }

  lemma {:induction false} ParenSpelled(x: Expr, rest: seq<Item>)
    ensures ExprTokens(Paren(x)) + rest == [Tok(LPAREN)] + (ExprTokens(x) + ([Tok(RPAREN)] + rest))
  {
  }

  lemma {:induction false} PrimaryReads(e: Expr, rest: seq<Item>, room: nat)
    requires IsPrimary(e) && Canon(e, 0) && Closed(e) && Glue(e, rest) && ExprNodes(e) <= room
    ensures ReadPrimary(ExprTokens(e) + rest, room) == Ok(e, rest, room - ExprNodes(e))
    decreases e, 0
  {
    hide ReadPrimary, ReadExpr, Climb, ReadAtom, ReadArgs, ReadMoreArgs, ReadChain, ReadPlace, ArgTokens, PlaceTokens,
      CanonArgs, ClosedArgs, ArgNodes, PlaceNodes;
    var s := ExprTokens(e) + rest;
    match e
    case Lit(l) =>
      LitReads(l, rest, room);
    case Ref(p) =>
      AtomPlace(p, rest, room);
    case Call(p, args) =>
      CallReads(p, args, rest, room);
    case Insert(n, _) =>
      ArchetypeReads(INSERT, n, rest, room);
    case Singleton(n, _) =>
      ArchetypeReads(SINGLETON, n, rest, room);
    case Un(op, x) =>
      UnSpelled(op, x, rest);
      PrimaryReads(x, rest, room);
      UnReads(op, ExprTokens(x) + rest, room);
    case Paren(x) =>
      var rest1 := [Tok(RPAREN)] + rest;
      ParenSpelled(x, rest);
      GlueBefore(x, rest1);
      ExprReads(x, 1, rest1, room);
      ParenReads(ExprTokens(x) + rest1, rest, room);
  }

  lemma {:induction false} CallReads(p: Place, args: seq<Expr>, rest: seq<Item>, room: nat)
    requires GoodPlace(p) && CanonArgs(args) && ClosedArgs(args)
    requires ExprNodes(Call(p, args)) <= room
    ensures ReadPrimary(ExprTokens(Call(p, args)) + rest, room)
         == Ok(Call(p, args), rest, room - ExprNodes(Call(p, args)))
    decreases args, 2
  {
    hide ReadPrimary, ReadAtom, ReadArgs, CanonArgs, ClosedArgs, PlaceTokens, ArgTokens, PlaceNodes, ArgNodes;
    var rest1 := [Tok(LPAREN)] + (ArgTokens(args) + rest);
    assert ExprTokens(Call(p, args)) + rest == PlaceTokens(p) + rest1;
    AtomPlace(p, rest1, room);
    assert rest1[1..] == ArgTokens(args) + rest;
    ArgsRead(args, rest, room - PlaceNodes(p));
  }

  lemma {:induction false} ArchetypeReads(t: Token, n: string, rest: seq<Item>, room: nat)
    requires t == INSERT || t == SINGLETON
    requires room > 0
    ensures var e := if t == INSERT then Insert(n, true) else Singleton(n, true);
            ReadPrimary(ExprTokens(e) + rest, room) == Ok(e, rest, room - 1)
  {
    hide ReadExpr, Climb, ReadArgs, ReadMoreArgs, ReadChain, ReadPlace, TryCall, ReadArchetype;
    var s1 := [Tok(LPAREN), Tok(IDENTIFIER(n)), Tok(RPAREN)] + rest;
    assert [Tok(t), Tok(LPAREN), Tok(IDENTIFIER(n)), Tok(RPAREN)] + rest == [Tok(t)] + s1;
    Peel(Tok(t), s1);
    NameReads(n, rest, room);
    Peel(Tok(RPAREN), rest);
    assert ReadPrimary([Tok(t)] + s1, room) == ReadAtom([Tok(t)] + s1, room);
  }

  lemma {:induction false} NameReads(n: string, rest: seq<Item>, room: nat)
    requires room > 0
    ensures ReadArchetype([Tok(LPAREN), Tok(IDENTIFIER(n)), Tok(RPAREN)] + rest, room)
            == Ok(n, [Tok(RPAREN)] + rest, room - 1)
  {
    var s := [Tok(LPAREN), Tok(IDENTIFIER(n)), Tok(RPAREN)] + rest;
    assert s[1..] == [Tok(IDENTIFIER(n)), Tok(RPAREN)] + rest;
    assert s[1..][1..] == [Tok(RPAREN)] + rest;
  }

  /** A closing token, a keyword or an operator never lengthens a name. */
  lemma {:induction false} GlueBefore(e: Expr, rest: seq<Item>)
    requires Head(rest).Tok? && Head(rest).t != DOT && Head(rest).t != LPAREN
    ensures Glue(e, rest)
  {
    match e
    case Un(_, x) => GlueBefore(x, rest);
    case Bin(_, _, r) => GlueBefore(r, rest);
    case _ =>
  }

  /** Reading `e` leaves the climber in its loop with `e` as left operand. */
  lemma {:induction false} ClimbOnce(t: Token, tail: seq<Item>, min: nat, lhs: Expr, room: nat)
    requires IsBinop(t) && Precedence(t) >= min
    requires ReadExpr(tail, NextMin(t), room).Ok? && ReadExpr(tail, NextMin(t), room).room > 0
    ensures var r := ReadExpr(tail, NextMin(t), room);
            Climb([Tok(t)] + tail, min, lhs, room)
              == Climb(r.rest, min, Bin(BinopFromToken(t), lhs, r.value), r.room - 1)
  {
    hide ReadExpr, IsBinop, Precedence, NextMin, BinopFromToken;
    assert ([Tok(t)] + tail)[1..] == tail;
  }

  lemma {:induction false} PrimaryClimbs(s: seq<Item>, min: nat, room: nat)
    requires ReadPrimary(s, room).Ok?
    ensures var r := ReadPrimary(s, room); ReadExpr(s, min, room) == Climb(r.rest, min, r.value, r.room)
  {
    hide ReadPrimary, Climb;
  }

  lemma {:induction false} ExprClimbs(e: Expr, min: nat, rest: seq<Item>, room: nat)
    requires Canon(e, min) && Closed(e) && Glue(e, rest) && ExprNodes(e) <= room
    requires Head(rest).Tok?
    requires e.Bin? && IsBinop(Head(rest).t) ==> Precedence(Head(rest).t) < NextMin(TokenOfBinop(e.op))
    ensures ReadExpr(ExprTokens(e) + rest, min, room) == Climb(rest, min, e, room - ExprNodes(e))
    decreases e, 1
  {
    hide ReadExpr, Climb, ReadPrimary, ReadAtom, TryCall, ReadArgs, ReadMoreArgs, CanonArgs, ClosedArgs, ArgTokens,
      ArgNodes, PlaceTokens, PlaceNodes;
    if e.Bin? {
      var t := TokenOfBinop(e.op);
      BinopTokens(e.op);
      var rest1 := [Tok(t)] + (ExprTokens(e.right) + rest);
      assert ExprTokens(e) + rest == ExprTokens(e.left) + rest1;
      GlueBefore(e.left, rest1);
      ExprClimbs(e.left, min, rest1, room);
      var room1 := room - ExprNodes(e.left);
      if e.right.Bin? { BinopTokens(e.right.op); }
      ExprReads(e.right, NextMin(t), rest, room1);
      ClimbOnce(t, ExprTokens(e.right) + rest, min, e.left, room1);
    } else {
      CanonLower(e, min, 0);
      PrimaryReads(e, rest, room);
      PrimaryClimbs(ExprTokens(e) + rest, min, room);
    }
  }

  lemma {:induction false} ExprReads(e: Expr, min: nat, rest: seq<Item>, room: nat)
    requires Canon(e, min) && Closed(e) && Follows(e, min, rest) && ExprNodes(e) <= room
    ensures ReadExpr(ExprTokens(e) + rest, min, room) == Ok(e, rest, room - ExprNodes(e))
    decreases e, 2
  {
    hide ReadExpr, Glue, ExprTokens, ExprNodes, Closed;
    if e.Bin? { BinopTokens(e.op); }
    ExprClimbs(e, min, rest, room);
  }

  lemma {:induction false} NoMoreArgs(done: seq<Expr>, rest: seq<Item>, room: nat)
    ensures ReadMoreArgs([Tok(RPAREN)] + rest, done, room) == Ok(done, rest, room)
  {
    assert ([Tok(RPAREN)] + rest)[1..] == rest;
  }

  lemma {:induction false} ArgFollows(e: Expr, more: seq<Expr>, rest: seq<Item>)
    ensures Follows(e, 0, MoreArgTokens(more) + rest)
  {
    hide Glue, ExprTokens;
    GlueBefore(e, MoreArgTokens(more) + rest);
  }

  lemma {:induction false} ArgsRead(args: seq<Expr>, rest: seq<Item>, room: nat)
    requires CanonArgs(args) && ClosedArgs(args) && 1 + ArgNodes(args) <= room
    ensures ReadArgs(ArgTokens(args) + rest, room) == Ok(args, rest, room - 1 - ArgNodes(args))
    decreases args, 1
  {
    hide ReadMoreArgs, MoreArgTokens, ReadExpr, Climb, ReadPrimary, ReadAtom, TryCall, Canon, Closed, ExprTokens,
      ExprNodes, Glue;
    var s := ArgTokens(args) + rest;
    if args == [] {
      NoMoreArgs([], rest, room - 1);
    } else {
      var rest1 := MoreArgTokens(args[1..]) + rest;
      assert s == ExprTokens(args[0]) + rest1;
      ExprTokensStart(args[0]);
      assert s[0] == ExprTokens(args[0])[0];
      ArgFollows(args[0], args[1..], rest);
      ExprReads(args[0], 0, rest1, room - 1);
      MoreArgsRead([args[0]], args[1..], rest, room - 1 - ExprNodes(args[0]));
      assert [args[0]] + args[1..] == args;
    }
  }

  lemma {:induction false} OneMoreArg(done: seq<Expr>, tail: seq<Item>, room: nat)
    requires ReadExpr(tail, 0, room).Ok?
    ensures var r := ReadExpr(tail, 0, room);
            ReadMoreArgs([Tok(COMMA)] + tail, done, room) == ReadMoreArgs(r.rest, done + [r.value], r.room)
  {
    hide ReadExpr;
    assert ([Tok(COMMA)] + tail)[1..] == tail;
  }

  lemma {:induction false} MoreArgsRead(done: seq<Expr>, args: seq<Expr>, rest: seq<Item>, room: nat)
    requires CanonArgs(args) && ClosedArgs(args) && ArgNodes(args) <= room
    ensures ReadMoreArgs(MoreArgTokens(args) + rest, done, room)
         == Ok(done + args, rest, room - ArgNodes(args))
    decreases args, 0
  {
    hide ReadMoreArgs, Follows, ReadExpr, Climb, ReadPrimary, ReadAtom, TryCall, Canon, Closed, ExprTokens, ExprNodes,
      Glue;
    var s := MoreArgTokens(args) + rest;
    if args == [] {
      NoMoreArgs(done, rest, room);
      assert done + args == done;
    } else {
      var rest1 := MoreArgTokens(args[1..]) + rest;
      assert s == [Tok(COMMA)] + (ExprTokens(args[0]) + rest1);
      OneMore(done, args);
      OneMore(done, args);
      ArgFollows(args[0], args[1..], rest);
      ExprReads(args[0], 0, rest1, room);
      OneMoreArg(done, ExprTokens(args[0]) + rest1, room);
      MoreArgsRead(done + [args[0]], args[1..], rest, room - ExprNodes(args[0]));
    }
  }

  // ----- statements

  predicate StmtFollows(st: Stmt, rest: seq<Item>) {
    match st
    case Let(_, _, e) => Follows(e, 0, rest)
    case Assign(_, e) => Follows(e, 0, rest)
    case Return(e) => Follows(e, 0, rest)
    case _ => true
  }

  predicate StartsStmt(t: Token) {
    t.IDENTIFIER? || t == LET || t == FUNCTION || t == RETURN || t == IF || t == WHILE
  }

  lemma {:induction false} StmtTokensStart(st: Stmt)
    requires CanonStmt(st)
    ensures StmtTokens(st) != [] && StmtTokens(st)[0].Tok? && StartsStmt(StmtTokens(st)[0].t)
    ensures st.Assign? || st.Do? ==> StmtTokens(st)[0].t.IDENTIFIER?
  {
    hide ExprTokens, ArgTokens, BranchTokens, BlockTokens, ElseTokens, ParamTokens, OptTypeTokens;
    if st.Assign? { PlaceTokensStart(st.target); }
    if st.Do? { PlaceTokensStart(st.callee); }
  }

  lemma {:induction false} StmtHead(st: Stmt)
    requires CanonStmt(st)
    ensures StmtTokens(st) != [] && StmtTokens(st)[0].Tok? && StartsStmt(StmtTokens(st)[0].t)
    ensures match st
            case Let(_, _, _) => StmtTokens(st)[0].t == LET
            case Return(e) => StmtTokens(st)[0].t == RETURN && StmtTokens(st)[1..] == ExprTokens(e)
            case If(_, _) => StmtTokens(st)[0].t == IF
            case While(_, _) => StmtTokens(st)[0].t == WHILE
            case Fun(_, _, _, _) => StmtTokens(st)[0].t == FUNCTION
            case _ => StmtTokens(st)[0].t.IDENTIFIER?
  {
    hide ExprTokens, ArgTokens, BranchTokens, BlockTokens, ElseTokens, ParamTokens, OptTypeTokens;
    StmtTokensStart(st);
  }

  /** After a statement comes another one or the stop token: neither extends it. */
  lemma {:induction false} BlockStart(b: seq<Stmt>, k: Stop, rest: seq<Item>)
    requires CanonBlock(b) && Head(rest).Tok? && StopsAt(k, Head(rest).t)
    ensures var h := Head(BlockTokens(b) + rest);
            h.Tok? && (StartsStmt(h.t) || StopsAt(k, h.t))
  {
    hide CanonStmt, StmtTokens;
    if b == [] {
      assert BlockTokens(b) + rest == rest;
    } else {
      StmtTokensStart(b[0]);
    }
  }

  lemma {:induction false} StartersFollow(st: Stmt, k: Stop, rest: seq<Item>)
    requires Head(rest).Tok? && (StartsStmt(Head(rest).t) || StopsAt(k, Head(rest).t))
    ensures StmtFollows(st, rest)
  {
    match st
    case Let(_, _, e) => GlueBefore(e, rest);
    case Assign(_, e) => GlueBefore(e, rest);
    case Return(e) => GlueBefore(e, rest);
    case _ =>
  }

  lemma {:induction false} TypeReads(ty: VarType, rest: seq<Item>, room: nat)
    ensures ReadType(TypeTokens(ty) + rest, room) == Ok(ty, rest, room)
  {
    var s := TypeTokens(ty) + rest;
    assert s[1..] == TypeTokens(ty)[1..] + rest;
    assert s[1..][1..] == rest;
  }

  lemma {:induction false} OptTypeReads(ty: Option<VarType>, rest: seq<Item>, room: nat)
    requires ty.None? ==> Head(rest).Tok? && Head(rest).t != COLON
    ensures TryReadType(OptTypeTokens(ty) + rest, room) == Ok(ty, rest, room)
  {
    match ty
    case None => assert OptTypeTokens(ty) + rest == rest;
    case Some(t) => TypeReads(t, rest, room);
  }

  lemma {:induction false} ParamReads(p: Param, rest: seq<Item>, room: nat)
    requires room > 0
    ensures ReadParam([Tok(IDENTIFIER(p.name))] + (TypeTokens(p.ty) + rest), room) == Ok(p, rest, room - 1)
  {
    hide ReadType, TypeTokens;
    Peel(Tok(IDENTIFIER(p.name)), TypeTokens(p.ty) + rest);
    TypeReads(p.ty, rest, room);
  }

  lemma {:induction false} ParamTokensAre(ps: seq<Param>, rest: seq<Item>)
    requires ps != []
    ensures ParamTokens(ps) + rest == [Tok(IDENTIFIER(ps[0].name))] + (TypeTokens(ps[0].ty)
              + (if |ps| == 1 then [Tok(RPAREN)] + rest else [Tok(COMMA)] + (ParamTokens(ps[1..]) + rest)))
  {
    hide TypeTokens;
  }

  lemma {:induction false} OneMore<T>(done: seq<T>, more: seq<T>)
    requires more != []
    ensures done + [more[0]] + more[1..] == done + more && (|more| == 1 ==> done + [more[0]] == done + more)
  {
  }

  lemma {:induction false} MoreParamsRead(done: seq<Param>, ps: seq<Param>, rest: seq<Item>, room: nat)
    requires ps != [] && |ps| <= room
    ensures ReadMoreParams(ParamTokens(ps) + rest, done, room) == Ok(done + ps, rest, room - |ps|)
    decreases ps
  {
    hide ReadMoreParams, ReadParam, TypeTokens, ParamTokens;
    ParamTokensAre(ps, rest);
    MoreParamsAre(ParamTokens(ps) + rest, done, room);
    OneMore(done, ps);
    if |ps| == 1 {
      ParamReads(ps[0], [Tok(RPAREN)] + rest, room);
      Peel(Tok(RPAREN), rest);
    } else {
      var more := ParamTokens(ps[1..]) + rest;
      ParamReads(ps[0], [Tok(COMMA)] + more, room);
      Peel(Tok(COMMA), more);
      MoreParamsRead(done + [ps[0]], ps[1..], rest, room - 1);
    }
  }

  lemma {:induction false} ParamsRead(ps: seq<Param>, rest: seq<Item>, room: nat)
    requires |ps| <= room
    ensures ReadParams((if ps == [] then [Tok(RPAREN)] else ParamTokens(ps)) + rest, room)
         == Ok(ps, rest, room - |ps|)
  {
    hide ReadMoreParams;
    if ps != [] {
      MoreParamsRead([], ps, rest, room);
      assert [] + ps == ps;
    } else {
      assert ([Tok(RPAREN)] + rest)[1..] == rest;
    }
  }

  lemma {:induction false} LetReads(st: Stmt, rest: seq<Item>, room: nat)
    requires st.Let? && CanonStmt(st) && ClosedStmt(st) && StmtFollows(st, rest) && StmtNodes(st) <= room
    ensures ReadLet(StmtTokens(st)[1..] + rest, room) == Ok(st, rest, room - StmtNodes(st))
  {
    hide ReadExpr, TryReadType, StmtTokens, OptTypeTokens, ExprTokens, ExprNodes, Canon, Closed;
    var link := [Tok(ASSIGN)] + (ExprTokens(st.init) + rest);
    LetSpelled(st.name, st.ty, st.init, rest);
    Peel(Tok(IDENTIFIER(st.name)), OptTypeTokens(st.ty) + link);
    OptTypeReads(st.ty, link, room);
    Peel(Tok(ASSIGN), ExprTokens(st.init) + rest);
    ExprReads(st.init, 0, rest, room);
  }

  lemma {:induction false} LetSpelled(n: string, ty: Option<VarType>, e: Expr, rest: seq<Item>)
    ensures StmtTokens(Let(n, ty, e))[1..] + rest
         == [Tok(IDENTIFIER(n))] + (OptTypeTokens(ty) + ([Tok(ASSIGN)] + (ExprTokens(e) + rest)))
  {
    hide OptTypeTokens, ExprTokens;
  }

  lemma {:induction false} AssignSteps(p: Place, e: Expr, s: seq<Item>, rest: seq<Item>, room: nat)
    requires PlaceNodes(p) + ExprNodes(e) + 1 <= room
    requires ReadPlace(s, room) == Ok(p, [Tok(ASSIGN)] + (ExprTokens(e) + rest), room - PlaceNodes(p))
    requires ReadExpr(ExprTokens(e) + rest, 0, room - PlaceNodes(p)) == Ok(e, rest, room - PlaceNodes(p) - ExprNodes(e))
    ensures ReadSimple(s, room) == Ok(Assign(p, e), rest, room - StmtNodes(Assign(p, e)))
  {
    hide ReadExpr, ReadPlace, ReadArgs, ExprTokens, PlaceNodes, ExprNodes;
    Peel(Tok(ASSIGN), ExprTokens(e) + rest);
  }

  lemma {:induction false} DoSteps(p: Place, args: seq<Expr>, s: seq<Item>, rest: seq<Item>, room: nat)
    requires PlaceNodes(p) + 1 + ArgNodes(args) <= room
    requires ReadPlace(s, room) == Ok(p, [Tok(LPAREN)] + (ArgTokens(args) + rest), room - PlaceNodes(p))
    requires ReadArgs(ArgTokens(args) + rest, room - PlaceNodes(p))
             == Ok(args, rest, room - PlaceNodes(p) - 1 - ArgNodes(args))
    ensures ReadSimple(s, room) == Ok(Do(p, args), rest, room - StmtNodes(Do(p, args)))
  {
    hide ReadExpr, ReadPlace, ReadArgs, ArgTokens, PlaceNodes, ArgNodes;
    Peel(Tok(LPAREN), ArgTokens(args) + rest);
  }

  lemma {:induction false} AssignSpelled(p: Place, e: Expr, rest: seq<Item>)
    ensures StmtTokens(Assign(p, e)) + rest == PlaceTokens(p) + ([Tok(ASSIGN)] + (ExprTokens(e) + rest))
  {
    hide PlaceTokens, ExprTokens;
  }

  lemma {:induction false} DoSpelled(p: Place, args: seq<Expr>, rest: seq<Item>)
    ensures StmtTokens(Do(p, args)) + rest == PlaceTokens(p) + ([Tok(LPAREN)] + (ArgTokens(args) + rest))
  {
    hide PlaceTokens, ArgTokens;
  }

  lemma {:induction false} AssignReads(p: Place, e: Expr, rest: seq<Item>, room: nat)
    requires RootedInName(p) && Canon(e, 0) && Closed(e) && Follows(e, 0, rest) && StmtNodes(Assign(p, e)) <= room
    ensures ReadSimple(StmtTokens(Assign(p, e)) + rest, room) == Ok(Assign(p, e), rest, room - StmtNodes(Assign(p, e)))
  {
    hide Follows, ReadSimple, ReadExpr, ReadPlace, StmtTokens, ExprTokens, PlaceTokens, ExprNodes, Canon, Closed,
      RootedInName, PlaceNodes;
    AssignSpelled(p, e, rest);
    PlaceStops(p, [Tok(ASSIGN)] + (ExprTokens(e) + rest), room);
    ExprReads(e, 0, rest, room - PlaceNodes(p));
    AssignSteps(p, e, StmtTokens(Assign(p, e)) + rest, rest, room);
  }

  lemma {:induction false} DoReads(p: Place, args: seq<Expr>, rest: seq<Item>, room: nat)
    requires RootedInName(p) && CanonArgs(args) && ClosedArgs(args) && StmtNodes(Do(p, args)) <= room
    ensures ReadSimple(StmtTokens(Do(p, args)) + rest, room) == Ok(Do(p, args), rest, room - StmtNodes(Do(p, args)))
  {
    hide ReadSimple, ReadArgs, ReadPlace, StmtTokens, ArgTokens, PlaceTokens, ArgNodes, CanonArgs, ClosedArgs,
      RootedInName, PlaceNodes;
    DoSpelled(p, args, rest);
    PlaceStops(p, [Tok(LPAREN)] + (ArgTokens(args) + rest), room);
    ArgsRead(args, rest, room - PlaceNodes(p));
    DoSteps(p, args, StmtTokens(Do(p, args)) + rest, rest, room);
  }

  /** The first token of a statement decides how it is read. */
  lemma {:induction false} StmtIs(s: seq<Item>, room: nat)
    requires Head(s).Tok? && StartsStmt(Head(s).t)
    ensures ReadStmt(s, room) ==
            (match Head(s).t
             case LET => ReadLet(s[1..], room)
             case FUNCTION => ReadFun(s[1..], room)
             case RETURN =>
               (match ReadExpr(s[1..], 0, room)
                case Fail(e) => Fail(e)
                case Ok(x, s1, room1) => if room1 == 0 then Fail(OUT_OF_NODE) else Ok(Return(x), s1, room1 - 1))
             case IF => if room == 0 then Fail(OUT_OF_NODE) else ReadBranches(s[1..], [], room - 1)
             case WHILE => ReadWhile(s[1..], room)
             case _ => ReadSimple(s, room))
  {
    hide ReadExpr, ReadBranches, ReadLet, ReadSimple, ReadWhile, ReadFun;
  }

  lemma {:induction false} StmtReads(st: Stmt, rest: seq<Item>, room: nat)
    requires CanonStmt(st) && ClosedStmt(st) && StmtFollows(st, rest) && StmtNodes(st) <= room
    ensures ReadStmt(StmtTokens(st) + rest, room) == Ok(st, rest, room - StmtNodes(st))
    decreases st, 1
  {
    hide ReadStmt, ReadExpr, ReadBranches, ReadWhile, ReadFun, ReadLet, ReadSimple, StmtTokens, ExprTokens,
      BranchTokens, ElseTokens, BranchNodes, ElseNodes, BlockNodes, ExprNodes, CanonBranches, CanonElse, CanonBlock,
      Canon, ClosedBranches, ClosedElse, ClosedBlock, Closed;
    var s := StmtTokens(st) + rest;
    StmtHead(st);
    DropFirst(StmtTokens(st), rest);
    StmtIs(s, room);
    match st
    case Let(_, _, _) =>
      LetReads(st, rest, room);
    case Assign(p, e) =>
      AssignReads(p, e, rest, room);
    case Do(p, args) =>
      DoReads(p, args, rest, room);
    case Return(e) =>
      ExprReads(e, 0, rest, room);
    case If(bs, els) =>
      IfReads(bs, els, rest, room - 1);
      IfTokens(bs, els, rest);
      Peel(Tok(IF), BranchTokens(bs) + (ElseTokens(els) + rest));
    case While(c, b) =>
      WhileReads(c, b, rest, room);
    case Fun(n, ps, ret, b) =>
      FunReads(n, ps, ret, b, rest, room);
  }

  lemma {:induction false} IfTokens(bs: seq<Branch>, els: Otherwise, rest: seq<Item>)
    requires bs != []
    ensures StmtTokens(If(bs, els)) + rest == [Tok(IF)] + (BranchTokens(bs) + (ElseTokens(els) + rest))
  {
    hide BranchTokens, ElseTokens;
    Regroup([], Tok(IF), BranchTokens(bs), ElseTokens(els), rest);
  }

  lemma {:induction false} IfReads(bs: seq<Branch>, els: Otherwise, rest: seq<Item>, room: nat)
    requires bs != [] && CanonBranches(bs) && CanonElse(els) && ClosedBranches(bs) && ClosedElse(els)
    requires BranchNodes(bs) + ElseNodes(els) <= room
    ensures ReadBranches(BranchTokens(bs) + (ElseTokens(els) + rest), [], room)
         == Ok(If(bs, els), rest, room - BranchNodes(bs) - ElseNodes(els))
    decreases If(bs, els), 0
  {
    hide ReadBranches, ReadElse, BranchTokens, ElseTokens, BranchNodes, ElseNodes, CanonBranches, CanonElse,
      ClosedBranches, ClosedElse;
    ElseStart(els, rest);
    BranchesRead([], bs, ElseTokens(els) + rest, room);
    assert [] + bs == bs;
    ElseReads(bs, els, rest, room - BranchNodes(bs));
  }

  lemma {:induction false} WhileReads(c: Expr, b: seq<Stmt>, rest: seq<Item>, room: nat)
    requires Canon(c, 0) && Closed(c) && CanonBlock(b) && ClosedBlock(b) && StmtNodes(While(c, b)) <= room
    ensures ReadWhile(StmtTokens(While(c, b))[1..] + rest, room)
         == Ok(While(c, b), rest, room - StmtNodes(While(c, b)))
    decreases b, 3
  {
    hide ReadWhile, Follows, Glue, ReadExpr, ReadBlock, ReadBody, ReadStmt, StmtTokens, ExprTokens, BlockTokens,
      BlockNodes, ExprNodes, CanonBlock, ClosedBlock, Canon, Closed;
    var stop := [Tok(END)] + rest;
    var s1 := [Tok(DO)] + (BlockTokens(b) + stop);
    WhileSpelled(c, b, rest);
    KeywordFollows(c, DO, BlockTokens(b) + stop);
    ExprReads(c, 0, s1, room);
    BodyReads(AtEnd, b, stop, room - ExprNodes(c) - 1);
    WhileSteps(c, b, ExprTokens(c) + s1, BlockTokens(b) + stop, stop, room, room - ExprNodes(c),
      room - ExprNodes(c) - 2 - BlockNodes(b));
    Peel(Tok(END), rest);
  }

  lemma {:induction false} WhileSteps(c: Expr, b: seq<Stmt>, s: seq<Item>, s2: seq<Item>, s3: seq<Item>,
                  room: nat, room1: nat, room3: nat)
    requires ReadExpr(s, 0, room) == Ok(c, [Tok(DO)] + s2, room1) && room1 > 0
    requires ReadBody(s2, AtEnd, room1 - 1) == Ok(b, s3, room3)
    ensures ReadWhile(s, room) == Ok(While(c, b), Tail(s3), room3)
  {
    hide ReadExpr, ReadBody;
    Peel(Tok(DO), s2);
  }

  lemma {:induction false} WhileSpelled(c: Expr, b: seq<Stmt>, rest: seq<Item>)
    ensures StmtTokens(While(c, b))[1..] + rest == ExprTokens(c) + ([Tok(DO)] + (BlockTokens(b) + ([Tok(END)] + rest)))
  {
    hide ExprTokens, BlockTokens;
  }

  lemma {:induction false} FunReads(n: string, ps: seq<Param>, ret: Option<VarType>, b: seq<Stmt>, rest: seq<Item>,
      room: nat)
    requires CanonBlock(b) && ClosedBlock(b) && StmtNodes(Fun(n, ps, ret, b)) <= room
    ensures ReadFun(StmtTokens(Fun(n, ps, ret, b))[1..] + rest, room)
         == Ok(Fun(n, ps, ret, b), rest, room - StmtNodes(Fun(n, ps, ret, b)))
    decreases b, 3
  {
    hide ReadFun, ReadBody, ReadParams, TryReadType, StmtTokens, BlockTokens, OptTypeTokens, ParamTokens, BlockNodes,
      CanonBlock, ClosedBlock;
    var stop := [Tok(END)] + rest;
    var s3 := BlockTokens(b) + stop;
    var s2 := OptTypeTokens(ret) + s3;
    var pars := if ps == [] then [Tok(RPAREN)] else ParamTokens(ps);
    ParamsRead(ps, s2, room - 1);
    NoColon(b, rest);
    OptTypeReads(ret, s3, room - 1 - |ps|);
    BodyReads(AtEnd, b, stop, room - 1 - |ps|);
    FunSteps(n, ps, ret, b, pars + s2, s2, s3, stop, room, room - 1 - |ps|, room - 2 - |ps| - BlockNodes(b));
    FunTokens(n, ps, ret, b, rest);
    Peel(Tok(END), rest);
  }

  lemma {:induction false} NoColon(b: seq<Stmt>, rest: seq<Item>)
    requires CanonBlock(b)
    ensures var h := Head(BlockTokens(b) + ([Tok(END)] + rest)); h.Tok? && h.t != COLON
  {
    hide BlockTokens, CanonBlock;
    BlockStart(b, AtEnd, [Tok(END)] + rest);
  }

  lemma {:induction false} FunTokens(n: string, ps: seq<Param>, ret: Option<VarType>, b: seq<Stmt>, rest: seq<Item>)
    ensures var pars := if ps == [] then [Tok(RPAREN)] else ParamTokens(ps);
            (StmtTokens(Fun(n, ps, ret, b))[1..] + rest
             == [Tok(IDENTIFIER(n))]
               + ([Tok(LPAREN)] + (pars + (OptTypeTokens(ret) + (BlockTokens(b) + ([Tok(END)] + rest))))))
  {
    hide ParamTokens, OptTypeTokens, BlockTokens;
    var pars := if ps == [] then [Tok(RPAREN)] else ParamTokens(ps);
    FunGrouped(n, pars, OptTypeTokens(ret), BlockTokens(b), rest);
  }

  lemma {:induction false} FunGrouped(n: string, pars: seq<Item>, ty: seq<Item>, body: seq<Item>, rest: seq<Item>)
    ensures ([Tok(FUNCTION), Tok(IDENTIFIER(n)), Tok(LPAREN)] + (pars + (ty + (body + [Tok(END)]))))[1..] + rest
         == [Tok(IDENTIFIER(n))] + ([Tok(LPAREN)] + (pars + (ty + (body + ([Tok(END)] + rest)))))
  {
  }

  lemma {:induction false} DropFirst(a: seq<Item>, b: seq<Item>)
    requires a != []
    ensures (a + b)[1..] == a[1..] + b && (a + b)[0] == a[0]
  {
  }

  lemma {:induction false} Peel(x: Item, s: seq<Item>)
    ensures ([x] + s)[1..] == s && Tail([x] + s) == s && Head([x] + s) == x
  {
  }

  lemma {:induction false} Regroup(a: seq<Item>, x: Item, b: seq<Item>, c: seq<Item>, tail: seq<Item>)
    ensures (a + ([x] + (b + c))) + tail == a + ([x] + (b + (c + tail)))
  {
  }

  /** The steps of a function declaration, one hypothesis for each part of it. */
  lemma {:induction false} FunSteps(n: string, ps: seq<Param>, ret: Option<VarType>, b: seq<Stmt>,
                 s1: seq<Item>, s2: seq<Item>, s3: seq<Item>, s4: seq<Item>,
                 room: nat, room2: nat, room4: nat)
    requires room > 0 && ReadParams(s1, room - 1) == Ok(ps, s2, room2)
    requires TryReadType(s2, room2) == Ok(ret, s3, room2)
    requires ReadBody(s3, AtEnd, room2) == Ok(b, s4, room4)
    ensures ReadFun([Tok(IDENTIFIER(n))] + ([Tok(LPAREN)] + s1), room) == Ok(Fun(n, ps, ret, b), Tail(s4), room4)
  {
    hide ReadFun, ReadFunSignature, ReadFunRest, ReadParams, ReadBody, TryReadType;
    FunNameSteps(n, [Tok(LPAREN)] + s1, room);
    FunRestSteps(n, ps, ret, b, s2, s3, s4, room2, room4);
    SignatureSteps(n, ps, s1, s2, room - 1, room2);
  }

  lemma {:induction false} FunNameSteps(n: string, s: seq<Item>, room: nat)
    requires room > 0
    ensures ReadFun([Tok(IDENTIFIER(n))] + s, room) == ReadFunSignature(s, n, room - 1)
  {
    hide ReadFunSignature;
    Peel(Tok(IDENTIFIER(n)), s);
  }

  lemma {:induction false} FunRestSteps(n: string, ps: seq<Param>, ret: Option<VarType>, b: seq<Stmt>,
                 s2: seq<Item>, s3: seq<Item>, s4: seq<Item>, room2: nat, room4: nat)
    requires TryReadType(s2, room2) == Ok(ret, s3, room2)
    requires ReadBody(s3, AtEnd, room2) == Ok(b, s4, room4)
    ensures ReadFunRest(s2, n, ps, room2) == Ok(Fun(n, ps, ret, b), Tail(s4), room4)
  {
    hide ReadBody, TryReadType;
  }

  lemma {:induction false} SignatureSteps(n: string, ps: seq<Param>, s1: seq<Item>, s2: seq<Item>, room: nat,
      room2: nat)
    requires ReadParams(s1, room) == Ok(ps, s2, room2)
    ensures ReadFunSignature([Tok(LPAREN)] + s1, n, room) == ReadFunRest(s2, n, ps, room2)
  {
    hide ReadParams, ReadFunRest;
    Peel(Tok(LPAREN), s1);
  }

  lemma {:induction false} BodyReads(k: Stop, b: seq<Stmt>, rest: seq<Item>, room: nat)
    requires CanonBlock(b) && ClosedBlock(b) && BlockNodes(b) < room
    requires Head(rest).Tok? && StopsAt(k, Head(rest).t)
    ensures ReadBody(BlockTokens(b) + rest, k, room) == Ok(b, rest, room - 1 - BlockNodes(b))
    decreases b, 2
  {
    hide ReadBlock, BlockTokens, BlockNodes, CanonBlock, ClosedBlock;
    BlockReads(k, [], b, rest, room - 1);
    assert [] + b == b;
  }

  lemma {:induction false} BlockEnds(s: seq<Item>, k: Stop, done: seq<Stmt>, room: nat)
    requires Head(s).Tok? && StopsAt(k, Head(s).t)
    ensures ReadBlock(s, k, done, room) == Ok(done, s, room)
  {
  }

  lemma {:induction false} BlockGoesOn(s: seq<Item>, k: Stop, done: seq<Stmt>, room: nat)
    requires Head(s).Tok? && !StopsAt(k, Head(s).t) && ReadStmt(s, room).Ok?
    ensures var r := ReadStmt(s, room);
            ReadBlock(s, k, done, room) == ReadBlock(r.rest, k, done + [r.value], r.room)
  {
    hide ReadStmt;
  }

  lemma {:induction false} BlockReads(k: Stop, done: seq<Stmt>, b: seq<Stmt>, rest: seq<Item>, room: nat)
    requires CanonBlock(b) && ClosedBlock(b) && BlockNodes(b) <= room
    requires Head(rest).Tok? && StopsAt(k, Head(rest).t)
    ensures ReadBlock(BlockTokens(b) + rest, k, done, room) == Ok(done + b, rest, room - BlockNodes(b))
    decreases b, 1
  {
    hide ReadBlock, StmtFollows, ReadStmt, StmtTokens, BlockTokens, StmtNodes, CanonStmt, ClosedStmt, StopsAt;
    var s := BlockTokens(b) + rest;
    if b == [] {
      NoBlock(done, rest);
      BlockEnds(s, k, done, room);
    } else {
      var rest1 := BlockTokens(b[1..]) + rest;
      BlockBegins(b, k, rest);
      OneMore(done, b);
      StmtReads(b[0], rest1, room);
      BlockGoesOn(s, k, done, room);
      BlockReads(k, done + [b[0]], b[1..], rest, room - StmtNodes(b[0]));
    }
  }

  lemma {:induction false} BlockBegins(b: seq<Stmt>, k: Stop, rest: seq<Item>)
    requires b != [] && CanonBlock(b) && Head(rest).Tok? && StopsAt(k, Head(rest).t)
    ensures var s, rest1 := BlockTokens(b) + rest, BlockTokens(b[1..]) + rest;
            && s == StmtTokens(b[0]) + rest1 && StmtFollows(b[0], rest1)
            && Head(s).Tok? && !StopsAt(k, Head(s).t)
  {
    hide StmtFollows, StmtTokens, BlockTokens, CanonStmt;
    StmtTokensStart(b[0]);
    BlockNext(b, rest);
    BlockStart(b[1..], k, rest);
    StartersFollow(b[0], k, BlockTokens(b[1..]) + rest);
  }

  lemma {:induction false} NoBlock(done: seq<Stmt>, rest: seq<Item>)
    ensures BlockTokens([]) + rest == rest && done + [] == done
  {
  }

  lemma {:induction false} BlockNext(b: seq<Stmt>, rest: seq<Item>)
    requires b != [] && StmtTokens(b[0]) != []
    ensures BlockTokens(b) + rest == StmtTokens(b[0]) + (BlockTokens(b[1..]) + rest)
    ensures Head(BlockTokens(b) + rest) == StmtTokens(b[0])[0]
  {
    hide StmtTokens;
  }

  /** Reading the branches leaves the parser at what follows them. */
  lemma {:induction false} BranchesRead(done: seq<Branch>, bs: seq<Branch>, tail: seq<Item>, room: nat)
    requires bs != [] && CanonBranches(bs) && ClosedBranches(bs) && BranchNodes(bs) <= room
    requires Head(tail) == Tok(END) || Head(tail) == Tok(ELSE)
    ensures ReadBranches(BranchTokens(bs) + tail, done, room)
         == ReadElse(tail, done + bs, room - BranchNodes(bs))
    decreases bs, 1
  {
    hide ReadBranches, ReadElse, BranchTokens, MoreBranchTokens, ExprNodes, BlockNodes, Canon, Closed, CanonBlock,
      ClosedBlock;
    BranchReads(done, bs, tail, room);
    MoreBranchesStart(bs[1..], tail);
    OneMore(done, bs);
    if bs[1..] != [] {
      BranchesRead(done + [bs[0]], bs[1..], tail, room - ExprNodes(bs[0].cond) - 1 - BlockNodes(bs[0].body));
    }
  }

  lemma {:induction false} KeywordFollows(c: Expr, t: Token, s: seq<Item>)
    requires t == THEN || t == DO
    ensures Follows(c, 0, [Tok(t)] + s)
  {
    hide Glue;
    GlueBefore(c, [Tok(t)] + s);
  }

  lemma {:induction false} BranchSpelled(bs: seq<Branch>, tail: seq<Item>)
    requires bs != []
    ensures BranchTokens(bs) + tail
         == ExprTokens(bs[0].cond) + ([Tok(THEN)] + (BlockTokens(bs[0].body) + (MoreBranchTokens(bs[1..]) + tail)))
  {
    hide ExprTokens, BlockTokens, MoreBranchTokens;
    Regroup(ExprTokens(bs[0].cond), Tok(THEN), BlockTokens(bs[0].body), MoreBranchTokens(bs[1..]), tail);
  }

  lemma {:induction false} BranchReads(done: seq<Branch>, bs: seq<Branch>, tail: seq<Item>, room: nat)
    requires bs != [] && CanonBranches(bs) && ClosedBranches(bs) && BranchNodes(bs) <= room
    requires Head(tail) == Tok(END) || Head(tail) == Tok(ELSE)
    ensures var stop := MoreBranchTokens(bs[1..]) + tail;
            var room1 := room - ExprNodes(bs[0].cond) - 1 - BlockNodes(bs[0].body);
            ReadBranches(BranchTokens(bs) + tail, done, room) ==
            (if bs[1..] != [] then ReadBranches(Tail(stop), done + [bs[0]], room1)
             else ReadElse(stop, done + [bs[0]], room1))
    decreases bs, 0
  {
    hide Follows, ReadBranches, ReadExpr, ReadBlock, ReadBody, ReadElse, Glue, ExprTokens, BlockTokens, BranchTokens,
      MoreBranchTokens, ExprNodes, BlockNodes, Canon, Closed, CanonBlock, ClosedBlock;
    var c, b := bs[0].cond, bs[0].body;
    var stop := MoreBranchTokens(bs[1..]) + tail;
    var s2 := BlockTokens(b) + stop;
    BranchSpelled(bs, tail);
    MoreBranchesHead(bs[1..], tail);
    KeywordFollows(c, THEN, s2);
    ExprReads(c, 0, [Tok(THEN)] + s2, room);
    var room1 := room - ExprNodes(c);
    BodyReads(AtBranch, b, stop, room1);
    BranchSteps(c, b, done, ExprTokens(c) + ([Tok(THEN)] + s2), s2, stop, room, room1, room1 - 1 - BlockNodes(b));
    assert bs[0] == Branch(c, b);
  }

  lemma {:induction false} MoreBranchesHead(bs: seq<Branch>, tail: seq<Item>)
    ensures Head(MoreBranchTokens(bs) + tail) == if bs == [] then Head(tail) else Tok(ELIF)
  {
    hide BranchTokens;
    MoreBranchesStart(bs, tail);
  }

  lemma {:induction false} MoreBranchesStart(bs: seq<Branch>, tail: seq<Item>)
    ensures bs == [] ==> MoreBranchTokens(bs) + tail == tail
    ensures bs != [] ==> MoreBranchTokens(bs) + tail == [Tok(ELIF)] + (BranchTokens(bs) + tail)
    ensures bs != [] ==> Tail(MoreBranchTokens(bs) + tail) == BranchTokens(bs) + tail
  {
    hide BranchTokens;
  }

  /** One round of the branch loop, one hypothesis for each part of it. */
  lemma {:induction false} BranchSteps(c: Expr, b: seq<Stmt>, done: seq<Branch>, s: seq<Item>, s2: seq<Item>,
                    s3: seq<Item>, room: nat, room1: nat, room3: nat)
    requires ReadExpr(s, 0, room) == Ok(c, [Tok(THEN)] + s2, room1)
    requires ReadBody(s2, AtBranch, room1) == Ok(b, s3, room3)
    ensures ReadBranches(s, done, room)
         == (if Head(s3) == Tok(ELIF) then ReadBranches(Tail(s3), done + [Branch(c, b)], room3)
             else ReadElse(s3, done + [Branch(c, b)], room3))
  {
    hide ReadExpr, ReadBlock, ReadBody, ReadElse;
    Peel(Tok(THEN), s2);
  }

  lemma {:induction false} ElseStart(els: Otherwise, rest: seq<Item>)
    ensures Head(ElseTokens(els) + rest) == Tok(if els.NoElse? then END else ELSE)
  {
  }

  lemma {:induction false} ElseReads(done: seq<Branch>, els: Otherwise, rest: seq<Item>, room: nat)
    requires CanonElse(els) && ClosedElse(els) && ElseNodes(els) <= room
    ensures ReadElse(ElseTokens(els) + rest, done, room) == Ok(If(done, els), rest, room - ElseNodes(els))
    decreases els, 1
  {
    hide ReadBody, BlockTokens, BlockNodes, CanonBlock, ClosedBlock;
    var stop := [Tok(END)] + rest;
    Peel(Tok(END), rest);
    if els.Else? {
      ElseSpelled(els.body, rest);
      Peel(Tok(ELSE), BlockTokens(els.body) + stop);
      BodyReads(AtBranch, els.body, stop, room);
    }
  }

  lemma {:induction false} ElseSpelled(b: seq<Stmt>, rest: seq<Item>)
    ensures ElseTokens(Else(b)) + rest == [Tok(ELSE)] + (BlockTokens(b) + ([Tok(END)] + rest))
  {
    hide BlockTokens;
  }

  /** Every canonical program is read back from its tokens, given enough nodes. */
  lemma {:induction false} ModuleReads(b: seq<Stmt>, room: nat)
    requires CanonBlock(b) && ClosedBlock(b) && BlockNodes(b) <= room
    ensures ReadModule(BlockTokens(b), room) == Ok(b, [], room - BlockNodes(b))
  {
    hide ReadBlock, BlockTokens, BlockNodes, CanonBlock, ClosedBlock;
    assert BlockTokens(b) + [] == BlockTokens(b);
    BlockStart(b, AtEof, []);
    BlockReads(AtEof, [], b, [], room);
    assert [] + b == b;
  }
}

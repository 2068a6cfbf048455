/** The check after `insert(x` and `singleton(x` whose result the parser drops:
    exactly when an accepted module is the spelling of a program all the same. */
module Closing {
  import opened Options
  import opened Tokens
  import opened Operators
  import opened Syntax
  import opened Reading
  import opened Canonical
  import opened Sound

  /** Every `insert ( name` and `singleton ( name` of the stream is followed by `)`. */
  predicate WellClosed(s: seq<Item>) {
    s == [] || (HeadClosed(s) && WellClosed(s[1..]))
  }

  predicate HeadClosed(s: seq<Item>) {
    (|s| >= 3 && Opens(s[0]) && s[1] == Tok(LPAREN) && s[2].Tok? && s[2].t.IDENTIFIER?)
    ==> |s| > 3 && s[3] == Tok(RPAREN)
  }

  predicate Opens(i: Item) {
    i == Tok(INSERT) || i == Tok(SINGLETON)
  }

  // ----- reading a well-closed stream finds every `)`

  lemma {:induction false} ChainKeeps(s: seq<Item>, p: Place, room: nat)
    requires WellClosed(s)
    ensures var r := ReadChain(s, p, room); r.Ok? ==> WellClosed(r.rest)
    decreases |s|
  {
    if Head(s) == Tok(DOT) && ReadLink(s, p, room).Ok? {
      assert WellClosed(Tail(s));
      ChainKeeps(ReadLink(s, p, room).rest, ReadLink(s, p, room).value, ReadLink(s, p, room).room);
    }
  }

  lemma {:induction false} PlaceKeeps(s: seq<Item>, room: nat)
    requires WellClosed(s)
    ensures var r := ReadPlace(s, room); r.Ok? ==> WellClosed(r.rest)
  {
    hide ReadChain;
    if ExpectName(s, room).Ok? && room > 0 { ChainKeeps(Tail(s), Sym(ExpectName(s, room).value), room - 1); }
  }

  lemma {:induction false} ExprKeeps(s: seq<Item>, min: nat, room: nat)
    requires WellClosed(s)
    ensures var r := ReadExpr(s, min, room); r.Ok? ==> WellClosed(r.rest) && Closed(r.value)
    decreases |s|, 4
  {
    hide Climb, ReadPrimary, WellClosed, Closed;
    match ReadPrimary(s, room)
    case Fail(_) =>
    case Ok(lhs, s1, room1) =>
      PrimaryKeeps(s, room);
      ClimbKeeps(s1, min, lhs, room1);
  }

  lemma {:induction false} ClimbKeeps(s: seq<Item>, min: nat, lhs: Expr, room: nat)
    requires WellClosed(s) && Closed(lhs)
    ensures var r := Climb(s, min, lhs, room); r.Ok? ==> WellClosed(r.rest) && Closed(r.value)
    decreases |s|, 0
  {
    hide ReadExpr, ReadPrimary, ClosedArgs, HeadClosed, Opens, BinopFromToken, NextMin;
    if Head(s).Tok? && IsBinop(Head(s).t) && Precedence(Head(s).t) >= min {
      var t := Head(s).t;
      ExprKeeps(s[1..], NextMin(t), room);
      match ReadExpr(s[1..], NextMin(t), room)
      case Fail(_) =>
      case Ok(rhs, s1, room1) =>
        if room1 > 0 { ClimbKeeps(s1, min, Bin(BinopFromToken(t), lhs, rhs), room1 - 1); }
    }
  }

  lemma {:induction false} PrimaryKeeps(s: seq<Item>, room: nat)
    requires WellClosed(s)
    ensures var r := ReadPrimary(s, room); r.Ok? ==> WellClosed(r.rest) && Closed(r.value)
    decreases |s|, 3
  {
    hide ReadExpr, ReadAtom;
    if Head(s).Tok? {
      var t := Head(s).t;
      if t == LPAREN {
        ExprKeeps(s[1..], 1, room);
      } else if IsUnop(t) {
        PrimaryKeeps(s[1..], room);
      } else if !IsBinop(t) {
        AtomKeeps(s, room);
      }
    }
  }

  lemma {:induction false} AtomKeeps(s: seq<Item>, room: nat)
    requires WellClosed(s)
    ensures var r := ReadAtom(s, room); r.Ok? ==> WellClosed(r.rest) && Closed(r.value)
    decreases |s|, 2
  {
    hide TryCall, ReadPlace, ReadChain, ReadArchetype;
    match Head(s)
    case Tok(IDENTIFIER(_)) =>
      PlaceKeeps(s, room);
      var r := ReadPlace(s, room);
      if r.Ok? { TryCallKeeps(r.rest, r.value, r.room); }
    case Tok(PRIMITIVE(prim)) =>
      if room > 0 {
        ChainKeeps(s[1..], Ctor(prim), room - 1);
        var r := ReadChain(s[1..], Ctor(prim), room - 1);
        if r.Ok? { TryCallKeeps(r.rest, r.value, r.room); }
      }
    case Tok(INSERT) => ArchetypeKeeps(s, room);
    case Tok(SINGLETON) => ArchetypeKeeps(s, room);
    case _ =>
  }

  lemma {:induction false} ArchetypeKeeps(s: seq<Item>, room: nat)
    requires WellClosed(s) && s != [] && Opens(s[0])
    ensures var r := ReadArchetype(s[1..], room);
            r.Ok? ==> WellClosed(Tail(r.rest)) && Head(r.rest) == Tok(RPAREN)
  {
    var r := ReadArchetype(s[1..], room);
    if r.Ok? {
      assert s[1..][1..][1..] == s[3..] && s[1..][1..] == s[2..];
      assert WellClosed(s[1..]) && WellClosed(s[1..][1..]) && WellClosed(s[2..][1..]);
    }
  }

  lemma {:induction false} TryCallKeeps(s: seq<Item>, p: Place, room: nat)
    requires WellClosed(s)
    ensures var r := TryCall(s, p, room); r.Ok? ==> WellClosed(r.rest) && Closed(r.value)
    decreases |s|, 1
  {
    hide ReadArgs;
    if Head(s) == Tok(LPAREN) { ArgsKeep(s[1..], room); }
  }

  lemma {:induction false} ArgsKeep(s: seq<Item>, room: nat)
    requires WellClosed(s)
    ensures var r := ReadArgs(s, room); r.Ok? ==> WellClosed(r.rest) && ClosedArgs(r.value)
    decreases |s|, 5
  {
    hide ReadExpr, ReadMoreArgs, WellClosed, Closed;
    if room > 0 && Head(s).Tok? {
      if Head(s).t == RPAREN {
        MoreArgsKeep(s, [], room - 1);
      } else {
        ExprKeeps(s, 0, room - 1);
        var r := ReadExpr(s, 0, room - 1);
        if r.Ok? { MoreArgsKeep(r.rest, [r.value], r.room); }
      }
    }
  }

  lemma {:induction false} MoreArgsKeep(s: seq<Item>, done: seq<Expr>, room: nat)
    requires WellClosed(s) && ClosedArgs(done)
    ensures var r := ReadMoreArgs(s, done, room); r.Ok? ==> WellClosed(r.rest) && ClosedArgs(r.value)
    decreases |s|, 0
  {
    hide ReadExpr, Closed;
    if Head(s) == Tok(COMMA) {
      ExprKeeps(s[1..], 0, room);
      var r := ReadExpr(s[1..], 0, room);
      if r.Ok? {
        ClosedArgsSnoc(done, r.value);
        MoreArgsKeep(r.rest, done + [r.value], r.room);
      }
    }
  }

  lemma {:induction false} ClosedArgsSnoc(args: seq<Expr>, e: Expr)
    requires ClosedArgs(args) && Closed(e)
    ensures ClosedArgs(args + [e])
    decreases args
  {
    hide Closed;
    if args != [] {
      ClosedArgsSnoc(args[1..], e);
      assert (args + [e])[1..] == args[1..] + [e];
    }
  }

  lemma {:induction false} ClosedBlockSnoc(b: seq<Stmt>, st: Stmt)
    requires ClosedBlock(b) && ClosedStmt(st)
    ensures ClosedBlock(b + [st])
    decreases b
  {
    hide ClosedStmt;
    if b != [] {
      ClosedBlockSnoc(b[1..], st);
      assert (b + [st])[1..] == b[1..] + [st];
    }
  }

  lemma {:induction false} ClosedBranchesSnoc(bs: seq<Branch>, x: Branch)
    requires ClosedBranches(bs) && Closed(x.cond) && ClosedBlock(x.body)
    ensures ClosedBranches(bs + [x])
    decreases bs
  {
    hide Closed, ClosedBlock;
    if bs != [] {
      ClosedBranchesSnoc(bs[1..], x);
      assert (bs + [x])[1..] == bs[1..] + [x];
    }
  }

  lemma {:induction false} ParamsKeep(s: seq<Item>, done: seq<Param>, room: nat)
    requires WellClosed(s)
    ensures var r := ReadMoreParams(s, done, room); r.Ok? ==> WellClosed(r.rest)
    decreases |s|
  {
    hide ReadMoreParams, ReadParam, WellClosed;
    MoreParamsAre(s, done, room);
    ParamKeeps(s, room);
    var p := ReadParam(s, room);
    if p.Ok? {
      TailKeeps(p.rest);
      if Head(p.rest) == Tok(COMMA) { ParamsKeep(Tail(p.rest), done + [p.value], p.room); }
    }
  }

  lemma {:induction false} ParamKeeps(s: seq<Item>, room: nat)
    requires WellClosed(s)
    ensures var p := ReadParam(s, room); p.Ok? ==> WellClosed(p.rest)
  {
    hide ReadType, WellClosed;
    TailKeeps(s);
    TypeKeeps(Tail(s), room);
  }

  lemma {:induction false} TypeKeeps(s: seq<Item>, room: nat)
    requires WellClosed(s)
    ensures var r := ReadType(s, room); r.Ok? ==> WellClosed(r.rest)
  {
    if s != [] { assert WellClosed(s[1..]); }
  }

  lemma {:induction false} StmtKeeps(s: seq<Item>, room: nat)
    requires WellClosed(s)
    ensures var r := ReadStmt(s, room); r.Ok? ==> WellClosed(r.rest) && ClosedStmt(r.value)
    decreases |s|, 2
  {
    hide ReadExpr, ReadBranches, ReadElse, ReadBlock, ReadBody, ReadPlace, ReadArgs, ReadType, ReadMoreParams, ReadLet,
      ReadSimple, ReadWhile, ReadFun, Closed, ClosedArgs, ClosedBranches, ClosedElse, ClosedBlock;
    match Head(s)
    case Tok(LET) => LetKeeps(s[1..], room);
    case Tok(FUNCTION) => FunKeeps(s[1..], room);
    case Tok(RETURN) => ExprKeeps(s[1..], 0, room);
    case Tok(IF) =>
      if room > 0 {
        NothingClosed();
        BranchesKeep(s[1..], [], room - 1);
      }
    case Tok(WHILE) => WhileKeeps(s[1..], room);
    case Tok(IDENTIFIER(_)) => SimpleKeeps(s, room);
    case _ =>
  }

  lemma {:induction false} LetKeeps(s: seq<Item>, room: nat)
    requires WellClosed(s)
    ensures var r := ReadLet(s, room); r.Ok? ==> WellClosed(r.rest) && ClosedStmt(r.value)
  {
    hide ReadExpr, ReadLetHead, WellClosed, Closed;
    var h := ReadLetHead(s, room);
    if h.Ok? {
      LetHeadKeeps(s, room);
      ExprKeeps(h.rest, 0, room);
    }
  }

  lemma {:induction false} TailKeeps(s: seq<Item>)
    requires WellClosed(s)
    ensures WellClosed(Tail(s))
  {
  }

  lemma {:induction false} TryTypeKeeps(s: seq<Item>, room: nat)
    requires WellClosed(s)
    ensures var r := TryReadType(s, room); r.Ok? ==> WellClosed(r.rest)
  {
    hide ReadType, WellClosed;
    if Head(s) == Tok(COLON) { TypeKeeps(s, room); }
  }

  lemma {:induction false} LetHeadKeeps(s: seq<Item>, room: nat)
    requires WellClosed(s)
    ensures var h := ReadLetHead(s, room); h.Ok? ==> WellClosed(h.rest)
  {
    hide TryReadType, WellClosed;
    TailKeeps(s);
    TryTypeKeeps(Tail(s), room);
    var r := TryReadType(Tail(s), room);
    if r.Ok? { TailKeeps(r.rest); }
  }

  lemma {:induction false} SimpleKeeps(s: seq<Item>, room: nat)
    requires WellClosed(s)
    ensures var r := ReadSimple(s, room); r.Ok? ==> WellClosed(r.rest) && ClosedStmt(r.value)
  {
    hide ReadExpr, ReadPlace, ReadArgs, Closed, ClosedArgs;
    PlaceKeeps(s, room);
    var r := ReadPlace(s, room);
    if r.Ok? && Head(r.rest) == Tok(ASSIGN) {
      ExprKeeps(r.rest[1..], 0, r.room);
    } else if r.Ok? && Head(r.rest) == Tok(LPAREN) {
      ArgsKeep(r.rest[1..], r.room);
    }
  }

  lemma {:induction false} WhileKeeps(s: seq<Item>, room: nat)
    requires WellClosed(s)
    ensures var r := ReadWhile(s, room); r.Ok? ==> WellClosed(r.rest) && ClosedStmt(r.value)
    decreases |s|, 7
  {
    hide ReadExpr, ReadWhileRest, WellClosed, ClosedStmt;
    ExprKeeps(s, 0, room);
    var r := ReadExpr(s, 0, room);
    if r.Ok? && r.room > 0 { WhileRestKeeps(r.rest, r.value, r.room - 1); }
  }

  lemma {:induction false} WhileRestKeeps(s: seq<Item>, c: Expr, room: nat)
    requires WellClosed(s) && Closed(c)
    ensures var r := ReadWhileRest(s, c, room); r.Ok? ==> WellClosed(r.rest) && ClosedStmt(r.value)
    decreases |s|, 6
  {
    hide ReadBody, WellClosed, Closed, ClosedBlock;
    if Head(s) == Tok(DO) {
      TailKeeps(s);
      BodyKeeps(Tail(s), AtEnd, room);
      var b := ReadBody(Tail(s), AtEnd, room);
      if b.Ok? { TailKeeps(b.rest); }
    }
  }

  lemma {:induction false} FunKeeps(s: seq<Item>, room: nat)
    requires WellClosed(s)
    ensures var r := ReadFun(s, room); r.Ok? ==> WellClosed(r.rest) && ClosedStmt(r.value)
    decreases |s|, 8
  {
    hide ReadFunSignature, ReadBody, ReadBlock, ReadStmt, ClosedBlock;
    var r := ReadFun(s, room);
    if r.Ok? {
      var n, s1 := ExpectName(s, room).value, Tail(s);
      assert r == ReadFunSignature(s1, n, room - 1);
      FunSignatureKeeps(s1, n, room - 1);
    }
  }

  lemma {:induction false} FunSignatureKeeps(s: seq<Item>, n: string, room: nat)
    requires WellClosed(s)
    ensures var r := ReadFunSignature(s, n, room); r.Ok? ==> WellClosed(r.rest) && ClosedStmt(r.value)
    decreases |s|, 7
  {
    hide ReadFunRest, ReadBody, ReadBlock, ReadStmt, ReadMoreParams, ClosedBlock;
    var r := ReadFunSignature(s, n, room);
    if r.Ok? {
      var s1 := Tail(s);
      if Head(s1) != Tok(RPAREN) { ParamsKeep(s1, [], room); }
      var ps := ReadParams(s1, room);
      assert r == ReadFunRest(ps.rest, n, ps.value, ps.room);
      FunRestKeeps(ps.rest, n, ps.value, ps.room);
    }
  }

  lemma {:induction false} FunRestKeeps(s: seq<Item>, n: string, ps: seq<Param>, room: nat)
    requires WellClosed(s)
    ensures var r := ReadFunRest(s, n, ps, room); r.Ok? ==> WellClosed(r.rest) && ClosedStmt(r.value)
    decreases |s|, 6
  {
    hide ReadBody, ReadBlock, ReadStmt, ReadType, ClosedBlock;
    var ret := TryReadType(s, room);
    if ret.Ok? {
      if Head(s) == Tok(COLON) { TypeKeeps(s, room); }
      BodyKeeps(ret.rest, AtEnd, room);
    }
  }

  lemma {:induction false} BodyKeeps(s: seq<Item>, k: Stop, room: nat)
    requires WellClosed(s)
    ensures var r := ReadBody(s, k, room); r.Ok? ==> WellClosed(r.rest) && ClosedBlock(r.value)
    decreases |s|, 4
  {
    hide ReadBlock, WellClosed;
    if room > 0 { BlockKeeps(s, k, [], room - 1); }
  }

  lemma {:induction false} BlockKeeps(s: seq<Item>, k: Stop, done: seq<Stmt>, room: nat)
    requires WellClosed(s) && ClosedBlock(done)
    ensures var r := ReadBlock(s, k, done, room); r.Ok? ==> WellClosed(r.rest) && ClosedBlock(r.value)
    decreases |s|, 3
  {
    hide ReadStmt, WellClosed, ClosedStmt;
    if Head(s).Tok? && !StopsAt(k, Head(s).t) {
      StmtKeeps(s, room);
      var r := ReadStmt(s, room);
      if r.Ok? {
        ClosedBlockSnoc(done, r.value);
        BlockKeeps(r.rest, k, done + [r.value], r.room);
      }
    }
  }

  lemma {:induction false} BranchesKeep(s: seq<Item>, done: seq<Branch>, room: nat)
    requires WellClosed(s) && ClosedBranches(done)
    ensures var r := ReadBranches(s, done, room); r.Ok? ==> WellClosed(r.rest) && ClosedStmt(r.value)
    decreases |s|, 5
  {
    hide ReadBranches, ReadExpr, ReadBody, ReadBlock, ReadElse, ReadStmt, Closed, ClosedBlock, ClosedBranches,
      ClosedStmt;
    BranchSteps1(s, done, room);
    if ReadBranches(s, done, room).Ok? {
      ExprKeeps(s, 0, room);
      var c := ReadExpr(s, 0, room);
      BodyKeeps(Tail(c.rest), AtBranch, c.room);
      var b := ReadBody(Tail(c.rest), AtBranch, c.room);
      ClosedBranchesSnoc(done, Branch(c.value, b.value));
      var now := done + [Branch(c.value, b.value)];
      if Head(b.rest) == Tok(ELIF) {
        BranchesKeep(b.rest[1..], now, b.room);
      } else {
        ElseKeeps(b.rest, now, b.room);
      }
    }
  }

  lemma {:induction false} ElseKeeps(s: seq<Item>, done: seq<Branch>, room: nat)
    requires WellClosed(s) && ClosedBranches(done)
    ensures var r := ReadElse(s, done, room); r.Ok? ==> WellClosed(r.rest) && ClosedStmt(r.value)
    decreases |s|, 5
  {
    hide ReadBody, ReadBlock, ReadStmt, ClosedBranches, ClosedBlock;
    if Head(s) == Tok(ELSE) { BodyKeeps(s[1..], AtBranch, room); }
  }

  // ----- and only well-closed streams are spellings

  lemma {:induction false} Cons(i: Item, s: seq<Item>)
    requires WellClosed(s) && !Opens(i)
    ensures WellClosed([i] + s)
  {
    assert ([i] + s)[1..] == s;
  }

  lemma {:induction false} Cons2(i: Item, j: Item, s: seq<Item>)
    requires WellClosed(s) && !Opens(i) && !Opens(j)
    ensures WellClosed([i, j] + s)
  {
    Cons(j, s);
    Cons(i, [j] + s);
    assert [i] + ([j] + s) == [i, j] + s;
  }

  lemma {:induction false} PlaceSpells(p: Place, s: seq<Item>)
    requires WellClosed(s)
    ensures WellClosed(PlaceTokens(p) + s)
    decreases p
  {
    match p
    case Sym(n) => Cons(Tok(IDENTIFIER(n)), s);
    case Member(q, n) =>
      Cons2(Tok(DOT), Tok(IDENTIFIER(n)), s);
      PlaceSpells(q, [Tok(DOT), Tok(IDENTIFIER(n))] + s);
      assert PlaceTokens(p) + s == PlaceTokens(q) + ([Tok(DOT), Tok(IDENTIFIER(n))] + s);
    case Ctor(t) => Cons(Tok(PRIMITIVE(t)), s);
    case Builtin(f) =>
      Cons2(Tok(DOT), Tok(IDENTIFIER(BuiltinName(f))), s);
      Cons(Tok(PRIMITIVE(BuiltinPrimitive(f))), [Tok(DOT), Tok(IDENTIFIER(BuiltinName(f)))] + s);
      assert PlaceTokens(p) + s
          == [Tok(PRIMITIVE(BuiltinPrimitive(f)))] + ([Tok(DOT), Tok(IDENTIFIER(BuiltinName(f)))] + s);
  }

  lemma {:induction false} InsertSpells(i: Item, n: string, s: seq<Item>)
    requires WellClosed(s) && Opens(i)
    ensures WellClosed([i, Tok(LPAREN), Tok(IDENTIFIER(n)), Tok(RPAREN)] + s)
  {
    Cons2(Tok(IDENTIFIER(n)), Tok(RPAREN), s);
    Cons(Tok(LPAREN), [Tok(IDENTIFIER(n)), Tok(RPAREN)] + s);
    var whole := [i, Tok(LPAREN), Tok(IDENTIFIER(n)), Tok(RPAREN)] + s;
    assert whole[1..] == [Tok(LPAREN)] + ([Tok(IDENTIFIER(n)), Tok(RPAREN)] + s);
  }

  lemma {:induction false} Grouped(a: seq<Item>, i: Item, b: seq<Item>, s: seq<Item>)
    ensures a + ([i] + b) + s == a + ([i] + (b + s))
    ensures a + [i] + b + s == a + ([i] + (b + s))
    ensures [i] + b + s == [i] + (b + s)
  {
  }

  lemma {:induction false} Wrapped(i: Item, a: seq<Item>, j: Item, s: seq<Item>)
    ensures [i] + (a + [j]) + s == [i] + (a + ([j] + s))
  {
  }

  lemma {:induction false} ExprSpells(e: Expr, s: seq<Item>)
    requires WellClosed(s)
    ensures WellClosed(ExprTokens(e) + s)
    decreases e
  {
    hide WellClosed, ArgTokens, PlaceTokens;
    match e
    case Lit(l) => Cons(Tok(LITERAL(l)), s);
    case Ref(p) => PlaceSpells(p, s);
    case Call(p, args) =>
      ArgsSpell(args, s);
      Cons(Tok(LPAREN), ArgTokens(args) + s);
      PlaceSpells(p, [Tok(LPAREN)] + (ArgTokens(args) + s));
      Grouped(PlaceTokens(p), Tok(LPAREN), ArgTokens(args), s);
    case Insert(n, _) => InsertSpells(Tok(INSERT), n, s);
    case Singleton(n, _) => InsertSpells(Tok(SINGLETON), n, s);
    case Un(op, x) =>
      ExprSpells(x, s);
      Cons(Tok(TokenOfUnop(op)), ExprTokens(x) + s);
      Grouped([], Tok(TokenOfUnop(op)), ExprTokens(x), s);
    case Bin(op, l, r) =>
      ExprSpells(r, s);
      Cons(Tok(TokenOfBinop(op)), ExprTokens(r) + s);
      ExprSpells(l, [Tok(TokenOfBinop(op))] + (ExprTokens(r) + s));
      Grouped(ExprTokens(l), Tok(TokenOfBinop(op)), ExprTokens(r), s);
    case Paren(x) =>
      Cons(Tok(RPAREN), s);
      ExprSpells(x, [Tok(RPAREN)] + s);
      Cons(Tok(LPAREN), ExprTokens(x) + ([Tok(RPAREN)] + s));
      Wrapped(Tok(LPAREN), ExprTokens(x), Tok(RPAREN), s);
  }

  lemma {:induction false} ArgsSpell(args: seq<Expr>, s: seq<Item>)
    requires WellClosed(s)
    ensures WellClosed(ArgTokens(args) + s)
    decreases args, 1
  {
    hide WellClosed, ExprTokens, MoreArgTokens;
    if args == [] {
      Cons(Tok(RPAREN), s);
    } else {
      MoreArgsSpell(args[1..], s);
      ExprSpells(args[0], MoreArgTokens(args[1..]) + s);
      assert ArgTokens(args) + s == ExprTokens(args[0]) + (MoreArgTokens(args[1..]) + s);
    }
  }

  lemma {:induction false} MoreArgsSpell(args: seq<Expr>, s: seq<Item>)
    requires WellClosed(s)
    ensures WellClosed(MoreArgTokens(args) + s)
    decreases args, 0
  {
    hide WellClosed, ExprTokens;
    if args == [] {
      Cons(Tok(RPAREN), s);
    } else {
      MoreArgsSpell(args[1..], s);
      ExprSpells(args[0], MoreArgTokens(args[1..]) + s);
      Cons(Tok(COMMA), ExprTokens(args[0]) + (MoreArgTokens(args[1..]) + s));
      assert MoreArgTokens(args) + s == [Tok(COMMA)] + (ExprTokens(args[0]) + (MoreArgTokens(args[1..]) + s));
    }
  }

  lemma {:induction false} OptTypeSpells(ty: Option<VarType>, s: seq<Item>)
    requires WellClosed(s)
    ensures WellClosed(OptTypeTokens(ty) + s)
  {
    match ty
    case None => assert [] + s == s;
    case Some(Prim(p)) => Cons2(Tok(COLON), Tok(PRIMITIVE(p)), s);
    case Some(Arch(n)) => Cons2(Tok(COLON), Tok(IDENTIFIER(n)), s);
  }

  lemma {:induction false} ParamsSpell(ps: seq<Param>, s: seq<Item>)
    requires ps != [] && WellClosed(s)
    ensures WellClosed(ParamTokens(ps) + s)
    decreases ps
  {
    hide WellClosed, TypeTokens;
    var more := if |ps| == 1 then [Tok(RPAREN)] else [Tok(COMMA)] + ParamTokens(ps[1..]);
    if |ps| == 1 {
      Cons(Tok(RPAREN), s);
    } else {
      ParamsSpell(ps[1..], s);
      Cons(Tok(COMMA), ParamTokens(ps[1..]) + s);
      assert more + s == [Tok(COMMA)] + (ParamTokens(ps[1..]) + s);
    }
    OptTypeSpells(Some(ps[0].ty), more + s);
    Cons(Tok(IDENTIFIER(ps[0].name)), TypeTokens(ps[0].ty) + (more + s));
    assert ParamTokens(ps) + s == [Tok(IDENTIFIER(ps[0].name))] + (TypeTokens(ps[0].ty) + (more + s));
  }

  lemma {:induction false} StmtSpells(st: Stmt, s: seq<Item>)
    requires WellClosed(s)
    ensures WellClosed(StmtTokens(st) + s)
    decreases st
  {
    hide WellClosed, ExprTokens, ArgTokens, PlaceTokens, OptTypeTokens, ParamTokens, BranchTokens, ElseTokens,
      BlockTokens;
    match st
    case Let(n, ty, e) =>
      ExprSpells(e, s);
      Cons(Tok(ASSIGN), ExprTokens(e) + s);
      OptTypeSpells(ty, [Tok(ASSIGN)] + (ExprTokens(e) + s));
      Cons2(Tok(LET), Tok(IDENTIFIER(n)), OptTypeTokens(ty) + ([Tok(ASSIGN)] + (ExprTokens(e) + s)));
      assert StmtTokens(st) + s
          == [Tok(LET), Tok(IDENTIFIER(n))] + (OptTypeTokens(ty) + ([Tok(ASSIGN)] + (ExprTokens(e) + s)));
    case Assign(p, e) =>
      ExprSpells(e, s);
      Cons(Tok(ASSIGN), ExprTokens(e) + s);
      PlaceSpells(p, [Tok(ASSIGN)] + (ExprTokens(e) + s));
      assert StmtTokens(st) + s == PlaceTokens(p) + ([Tok(ASSIGN)] + (ExprTokens(e) + s));
    case Do(p, args) =>
      ArgsSpell(args, s);
      Cons(Tok(LPAREN), ArgTokens(args) + s);
      PlaceSpells(p, [Tok(LPAREN)] + (ArgTokens(args) + s));
      assert StmtTokens(st) + s == PlaceTokens(p) + ([Tok(LPAREN)] + (ArgTokens(args) + s));
    case Return(e) =>
      ExprSpells(e, s);
      Cons(Tok(RETURN), ExprTokens(e) + s);
      assert StmtTokens(st) + s == [Tok(RETURN)] + (ExprTokens(e) + s);
    case If(bs, els) => IfSpells(bs, els, s);
    case While(c, b) =>
      EndedSpells(b, s);
      Cons(Tok(DO), BlockTokens(b) + ([Tok(END)] + s));
      ExprSpells(c, [Tok(DO)] + (BlockTokens(b) + ([Tok(END)] + s)));
      Cons(Tok(WHILE), ExprTokens(c) + ([Tok(DO)] + (BlockTokens(b) + ([Tok(END)] + s))));
      WhileTokens(c, b, s);
    case Fun(n, ps, ret, b) => FunClosed(n, ps, ret, b, s);
  }

  lemma {:induction false} EndedSpells(b: seq<Stmt>, s: seq<Item>)
    requires WellClosed(s)
    ensures WellClosed(BlockTokens(b) + ([Tok(END)] + s))
    decreases b, 1
  {
    Cons(Tok(END), s);
    BlockSpells(b, [Tok(END)] + s);
  }

  lemma {:induction false} FunClosed(n: string, ps: seq<Param>, ret: Option<VarType>, b: seq<Stmt>, s: seq<Item>)
    requires WellClosed(s)
    ensures WellClosed(StmtTokens(Fun(n, ps, ret, b)) + s)
    decreases b, 2
  {
    hide WellClosed, OptTypeTokens, ParamTokens, BlockTokens;
    EndedSpells(b, s);
    var s3 := BlockTokens(b) + ([Tok(END)] + s);
    OptTypeSpells(ret, s3);
    var s2 := OptTypeTokens(ret) + s3;
    var pars := if ps == [] then [Tok(RPAREN)] else ParamTokens(ps);
    if ps == [] { Cons(Tok(RPAREN), s2); } else { ParamsSpell(ps, s2); }
    Cons(Tok(LPAREN), pars + s2);
    Cons2(Tok(FUNCTION), Tok(IDENTIFIER(n)), [Tok(LPAREN)] + (pars + s2));
    FunSpells(n, pars, OptTypeTokens(ret), BlockTokens(b), s);
    assert [Tok(FUNCTION), Tok(IDENTIFIER(n)), Tok(LPAREN)] + (pars + s2)
        == [Tok(FUNCTION), Tok(IDENTIFIER(n))] + ([Tok(LPAREN)] + (pars + s2));
  }

  lemma {:induction false} IfSpells(bs: seq<Branch>, els: Otherwise, s: seq<Item>)
    requires WellClosed(s)
    ensures WellClosed(StmtTokens(If(bs, els)) + s)
    decreases If(bs, els), 0
  {
    hide WellClosed, BranchTokens, ElseTokens;
    ElseSpells(els, s);
    var tail := ElseTokens(els) + s;
    if bs == [] {
      Cons(Tok(IF), tail);
      assert StmtTokens(If(bs, els)) + s == [Tok(IF)] + tail;
    } else {
      BranchesSpell(bs, tail);
      Cons(Tok(IF), BranchTokens(bs) + tail);
      IfTokens(bs, els, s);
    }
  }

  lemma {:induction false} ElseSpells(els: Otherwise, s: seq<Item>)
    requires WellClosed(s)
    ensures WellClosed(ElseTokens(els) + s)
    decreases els, 1
  {
    hide WellClosed, BlockTokens;
    match els
    case NoElse => Cons(Tok(END), s);
    case Else(b) =>
      EndedSpells(b, s);
      Cons(Tok(ELSE), BlockTokens(b) + ([Tok(END)] + s));
      assert ElseTokens(els) + s == [Tok(ELSE)] + (BlockTokens(b) + ([Tok(END)] + s));
  }

  lemma {:induction false} BranchesSpell(bs: seq<Branch>, s: seq<Item>)
    requires bs != [] && WellClosed(s)
    ensures WellClosed(BranchTokens(bs) + s)
    decreases bs, 1
  {
    hide WellClosed, ExprTokens, BlockTokens, MoreBranchTokens;
    MoreBranchesStart(bs[1..], s);
    if bs[1..] != [] {
      BranchesSpell(bs[1..], s);
      Cons(Tok(ELIF), BranchTokens(bs[1..]) + s);
    }
    var more := MoreBranchTokens(bs[1..]);
    BlockSpells(bs[0].body, more + s);
    Cons(Tok(THEN), BlockTokens(bs[0].body) + (more + s));
    ExprSpells(bs[0].cond, [Tok(THEN)] + (BlockTokens(bs[0].body) + (more + s)));
    Regroup(ExprTokens(bs[0].cond), Tok(THEN), BlockTokens(bs[0].body), more, s);
  }

  lemma {:induction false} BlockSpells(b: seq<Stmt>, s: seq<Item>)
    requires WellClosed(s)
    ensures WellClosed(BlockTokens(b) + s)
    decreases b, 0
  {
    hide WellClosed, StmtTokens;
    if b == [] {
      assert [] + s == s;
    } else {
      BlockSpells(b[1..], s);
      StmtSpells(b[0], BlockTokens(b[1..]) + s);
      assert BlockTokens(b) + s == StmtTokens(b[0]) + (BlockTokens(b[1..]) + s);
    }
  }

  ghost predicate Spelled(s: seq<Item>) {
    exists b :: CanonBlock(b) && ClosedBlock(b) && BlockTokens(b) == s
  }

  /** An accepted module is the spelling of a program if and only if no `insert(x`
      or `singleton(x` in it lacks its `)`. */
  lemma {:induction false} AcceptedIffSpelled(s: seq<Item>, room: nat)
    requires Proper(s) && ReadModule(s, room).Ok?
    ensures Spelled(s) <==> WellClosed(s)
  {
    hide ReadBlock, CanonBlock, ClosedBlock, BlockTokens, BlockNodes;
    if WellClosed(s) {
      assert ClosedBlock([]) by { NothingClosed(); }
      BlockKeeps(s, AtEof, [], room);
      ModuleSound(s, room);
      assert Spelled(s);
    }
    if Spelled(s) {
      var b :| CanonBlock(b) && ClosedBlock(b) && BlockTokens(b) == s;
      BlockSpells(b, []);
      assert BlockTokens(b) + [] == s;
    }
  }

  lemma {:induction false} NothingClosed()
    ensures ClosedBlock([]) && ClosedBranches([])
  {
  }

  /** `return insert(player ,` is accepted and is no program's spelling. */
  lemma {:induction false} UnclosedAccepted()
    ensures var s := [Tok(RETURN), Tok(INSERT), Tok(LPAREN), Tok(IDENTIFIER("player")), Tok(COMMA)];
            ReadModule(s, 2).Ok? && !Spelled(s)
  {
    hide ReadModule, WellClosed, Spelled;
    UnclosedRead();
    NotClosed();
    AcceptedIffSpelled([Tok(RETURN), Tok(INSERT), Tok(LPAREN), Tok(IDENTIFIER("player")), Tok(COMMA)], 2);
  }

  lemma {:induction false} NotClosed()
    ensures !WellClosed([Tok(RETURN), Tok(INSERT), Tok(LPAREN), Tok(IDENTIFIER("player")), Tok(COMMA)])
  {
    var s := [Tok(RETURN), Tok(INSERT), Tok(LPAREN), Tok(IDENTIFIER("player")), Tok(COMMA)];
    assert s[1..][3] == Tok(COMMA);
  }

  const UNCLOSED := Insert("player", false)

  lemma {:induction false} UnclosedRead()
    ensures ReadModule([Tok(RETURN), Tok(INSERT), Tok(LPAREN), Tok(IDENTIFIER("player")), Tok(COMMA)], 2)
         == Ok([Return(UNCLOSED)], [], 0)
  {
    hide ReadExpr, ReadLet, ReadFun, ReadBranches, ReadWhile, ReadSimple;
    var s := [Tok(RETURN), Tok(INSERT), Tok(LPAREN), Tok(IDENTIFIER("player")), Tok(COMMA)];
    assert s[1..] == [Tok(INSERT), Tok(LPAREN), Tok(IDENTIFIER("player")), Tok(COMMA)];
    UnclosedExpr();
    assert ReadStmt(s, 2) == Ok(Return(UNCLOSED), [], 0);
    assert [] + [Return(UNCLOSED)] == [Return(UNCLOSED)];
    assert ReadBlock([], AtEof, [Return(UNCLOSED)], 0) == Ok([Return(UNCLOSED)], [], 0);
  }

  lemma {:induction false} UnclosedExpr()
    ensures ReadExpr([Tok(INSERT), Tok(LPAREN), Tok(IDENTIFIER("player")), Tok(COMMA)], 0, 2)
         == Ok(UNCLOSED, [], 1)
  {
    hide TryCall, ReadPlace, ReadChain;
    var s := [Tok(INSERT), Tok(LPAREN), Tok(IDENTIFIER("player")), Tok(COMMA)];
    assert s[1..] == [Tok(LPAREN), Tok(IDENTIFIER("player")), Tok(COMMA)];
    assert s[1..][1..] == [Tok(IDENTIFIER("player")), Tok(COMMA)];
    assert s[1..][1..][1..] == [Tok(COMMA)];
    assert ReadArchetype(s[1..], 2) == Ok("player", [Tok(COMMA)], 1);
    assert ReadAtom(s, 2) == Ok(UNCLOSED, [], 1);
    assert ReadPrimary(s, 2) == Ok(UNCLOSED, [], 1);
  }
}

/** The parser is sound: what it accepts is a canonical tree that spells the items
    it consumed, and the two directions together make parsing exact. */
module Sound {
  import opened Options
  import opened Tokens
  import opened Operators
  import opened Syntax
  import opened Reading
  import opened Canonical

  /** `e` is a reading of the front of `s` that leaves `rest`, at precedence `min`,
      and it takes the nodes by which `room` shrinks to `room1`. */
  ghost predicate ReadsAs(s: seq<Item>, min: nat, room: nat, e: Expr, rest: seq<Item>, room1: nat) {
    && Canon(e, min)
    && Follows(e, min, rest)
    && room == room1 + ExprNodes(e)
    && (Closed(e) ==> s == ExprTokens(e) + rest)
  }

  ghost predicate StmtReadsAs(s: seq<Item>, room: nat, st: Stmt, rest: seq<Item>, room1: nat) {
    && CanonStmt(st)
    && StmtFollows(st, rest)
    && room == room1 + StmtNodes(st)
    && (ClosedStmt(st) ==> s == StmtTokens(st) + rest)
  }

  lemma {:induction false} TokenOps(t: Token)
    requires IsBinop(t)
    ensures TokenOfBinop(BinopFromToken(t)) == t && BinopFromToken(t) != Sub
    ensures Precedence(t) <= NextMin(t)
  {
  }

  lemma {:induction false} ChainSound(s: seq<Item>, p: Place, room: nat)
    ensures var r := ReadChain(s, p, room);
            r.Ok? ==>
              && PlaceTokens(p) + s == PlaceTokens(r.value) + r.rest
              && room + PlaceNodes(p) == r.room + PlaceNodes(r.value)
              && (GoodPlace(p) ==> GoodPlace(r.value))
              && (RootedInName(p) ==> RootedInName(r.value))
              && Head(r.rest).Tok? && Head(r.rest).t != DOT
    decreases |s|
  {
    hide ReadLink, PlaceTokens, PlaceNodes, GoodPlace, RootedInName;
    if Head(s) == Tok(DOT) && ReadLink(s, p, room).Ok? {
      var r := ReadLink(s, p, room);
      LinkSound(s, p, room);
      ChainSound(r.rest, r.value, r.room);
    }
  }

  lemma {:induction false} LinkSound(s: seq<Item>, p: Place, room: nat)
    requires Head(s) == Tok(DOT)
    ensures var r := ReadLink(s, p, room);
            r.Ok? ==>
              && PlaceTokens(p) + s == PlaceTokens(r.value) + r.rest
              && room + PlaceNodes(p) == r.room + PlaceNodes(r.value)
              && (GoodPlace(p) ==> GoodPlace(r.value))
              && (RootedInName(p) ==> RootedInName(r.value))
  {
    var r := ReadLink(s, p, room);
    if r.Ok? {
      var n := ExpectName(Tail(s), room).value;
      assert s == [Tok(DOT), Tok(IDENTIFIER(n))] + r.rest;
    }
  }

  lemma {:induction false} PlaceSound(s: seq<Item>, room: nat)
    ensures var r := ReadPlace(s, room);
            r.Ok? ==>
              && s == PlaceTokens(r.value) + r.rest
              && room == r.room + PlaceNodes(r.value)
              && RootedInName(r.value)
              && Head(r.rest).Tok? && Head(r.rest).t != DOT
  {
    hide ReadChain;
    if ExpectName(s, room).Ok? && room > 0 {
      var n := ExpectName(s, room).value;
      ChainSound(Tail(s), Sym(n), room - 1);
      assert s == PlaceTokens(Sym(n)) + Tail(s);
    }
  }

  lemma {:induction false} ExprSound(s: seq<Item>, min: nat, room: nat)
    ensures var r := ReadExpr(s, min, room);
            r.Ok? ==> ReadsAs(s, min, room, r.value, r.rest, r.room)
    decreases |s|, 4
  {
    hide Climb, ReadPrimary, Canon, ExprTokens, ExprNodes, Closed, Glue;
    match ReadPrimary(s, room)
    case Fail(_) =>
    case Ok(lhs, s1, room1) =>
      PrimarySound(s, room);
      CanonAny(lhs, min);
      ClimbSound(s1, min, lhs, room1);
  }

  lemma {:induction false} CanonAny(e: Expr, min: nat)
    requires IsPrimary(e) && Canon(e, 0)
    ensures Canon(e, min)
  {
  }

  lemma {:induction false} ClimbSound(s: seq<Item>, min: nat, lhs: Expr, room: nat)
    requires Canon(lhs, min) && Glue(lhs, s)
    requires lhs.Bin? && Head(s).Tok? && IsBinop(Head(s).t) ==>
               Precedence(Head(s).t) < NextMin(TokenOfBinop(lhs.op))
    ensures var r := Climb(s, min, lhs, room);
            r.Ok? ==>
              && Canon(r.value, min)
              && Follows(r.value, min, r.rest)
              && room + ExprNodes(lhs) == r.room + ExprNodes(r.value)
              && (Closed(r.value) ==> Closed(lhs) && ExprTokens(lhs) + s == ExprTokens(r.value) + r.rest)
    decreases |s|, 0
  {
    hide ReadExpr, ExprTokens, ExprNodes, Canon, Closed, Glue, Precedence, NextMin, BinopFromToken, TokenOfBinop;
    if Head(s).Tok? && IsBinop(Head(s).t) && Precedence(Head(s).t) >= min {
      var t := Head(s).t;
      match ReadExpr(s[1..], NextMin(t), room)
      case Fail(_) =>
      case Ok(rhs, s1, room1) =>
        ExprSound(s[1..], NextMin(t), room);
        TokenOps(t);
        if room1 > 0 {
          var e := Bin(BinopFromToken(t), lhs, rhs);
          BinIs(e, s1);
          BinCanon(e, min, t);
          ClimbSound(s1, min, e, room1 - 1);
          if Closed(rhs) {
            BinTokens(e, s, s1);
          }
        }
    }
  }

  lemma {:induction false} BinIs(e: Expr, rest: seq<Item>)
    requires e.Bin?
    ensures Glue(e, rest) == Glue(e.right, rest) && Closed(e) == (Closed(e.left) && Closed(e.right))
    ensures ExprNodes(e) == ExprNodes(e.left) + ExprNodes(e.right) + 1
  {
  }

  lemma {:induction false} BinCanon(e: Expr, min: nat, t: Token)
    requires e.Bin? && TokenOfBinop(e.op) == t && e.op != Sub && Precedence(t) >= min
    requires Canon(e.left, min) && Canon(e.right, NextMin(t))
    requires e.left.Bin? ==> Precedence(t) < NextMin(TokenOfBinop(e.left.op))
    ensures Canon(e, min)
  {
  }

  lemma {:induction false} BinTokens(e: Expr, s: seq<Item>, s1: seq<Item>)
    requires e.Bin? && s != [] && s[0] == Tok(TokenOfBinop(e.op)) && s[1..] == ExprTokens(e.right) + s1
    ensures ExprTokens(e.left) + s == ExprTokens(e) + s1
  {
    hide ExprTokens;
    BinSpells(e);
    assert s == [s[0]] + (ExprTokens(e.right) + s1);
  }

  lemma {:induction false} BinSpells(e: Expr)
    requires e.Bin?
    ensures ExprTokens(e) == ExprTokens(e.left) + ([Tok(TokenOfBinop(e.op))] + ExprTokens(e.right))
  {
  }

  lemma {:induction false} ParenTokens(e: Expr, s: seq<Item>, s1: seq<Item>)
    requires Head(s) == Tok(LPAREN) && s[1..] == ExprTokens(e) + s1 && Head(s1) == Tok(RPAREN)
    ensures s == ExprTokens(Paren(e)) + Tail(s1)
  {
    assert s1 == [Tok(RPAREN)] + Tail(s1);
    assert s == [Tok(LPAREN)] + s[1..];
    assert s == [Tok(LPAREN)] + (ExprTokens(e) + [Tok(RPAREN)]) + Tail(s1);
  }

  lemma {:induction false} UnTokens(t: Token, e: Expr, s: seq<Item>, s1: seq<Item>)
    requires Head(s) == Tok(t) && IsUnop(t) && s[1..] == ExprTokens(e) + s1
    ensures s == ExprTokens(Un(UnopFromToken(t), e)) + s1
  {
    assert s == [Tok(t)] + s[1..];
  }

  lemma {:induction false} PrimarySteps(s: seq<Item>, room: nat)
    requires ReadPrimary(s, room).Ok?
    ensures Head(s).Tok?
    ensures var t, r := Head(s).t, ReadPrimary(s, room);
            if t == LPAREN then
              var x := ReadExpr(s[1..], 1, room);
              x.Ok? && Head(x.rest) == Tok(RPAREN) && r == Ok(Paren(x.value), Tail(x.rest), x.room)
            else if IsUnop(t) then
              var x := ReadPrimary(s[1..], room);
              x.Ok? && x.room > 0 && r == Ok(Un(UnopFromToken(t), x.value), x.rest, x.room - 1)
            else r == ReadAtom(s, room)
  {
    hide ReadExpr, ReadAtom, IsUnop, IsBinop, UnopFromToken;
  }

  lemma {:induction false} PrimarySound(s: seq<Item>, room: nat)
    ensures var r := ReadPrimary(s, room);
            r.Ok? ==>
              && IsPrimary(r.value) && Canon(r.value, 0) && Glue(r.value, r.rest)
              && room == r.room + ExprNodes(r.value)
              && (Closed(r.value) ==> s == ExprTokens(r.value) + r.rest)
    decreases |s|, 3
  {
    hide ReadPrimary, ReadExpr, ReadAtom, ExprTokens, IsUnop, UnopFromToken;
    if ReadPrimary(s, room).Ok? {
      PrimarySteps(s, room);
      var t := Head(s).t;
      if t == LPAREN {
        ExprSound(s[1..], 1, room);
        var x := ReadExpr(s[1..], 1, room);
        if Closed(x.value) { ParenTokens(x.value, s, x.rest); }
      } else if IsUnop(t) {
        NoEnd(t);
        PrimarySound(s[1..], room);
        var x := ReadPrimary(s[1..], room);
        if Closed(x.value) { UnTokens(t, x.value, s, x.rest); }
      } else {
        AtomSound(s, room);
      }
    }
  }

  lemma {:induction false} NoEnd(t: Token)
    requires IsUnop(t)
    ensures t != EOF
  {
  }

  /** Atoms that are no place. */
  lemma {:induction false} LeafSound(s: seq<Item>, room: nat)
    requires !(Head(s).Tok? && (Head(s).t.IDENTIFIER? || Head(s).t.PRIMITIVE?))
    ensures var r := ReadAtom(s, room);
            r.Ok? ==>
              && IsPrimary(r.value) && Canon(r.value, 0) && Glue(r.value, r.rest)
              && room == r.room + ExprNodes(r.value)
              && (Closed(r.value) ==> s == ExprTokens(r.value) + r.rest)
  {
    hide ReadArchetype;
    match Head(s)
    case Tok(INSERT) => ArchetypeSound(s, room);
    case Tok(SINGLETON) => ArchetypeSound(s, room);
    case Tok(LITERAL(l)) => assert s == [s[0]] + s[1..];
    case _ =>
  }

  lemma {:induction false} AtomSound(s: seq<Item>, room: nat)
    ensures var r := ReadAtom(s, room);
            r.Ok? ==>
              && IsPrimary(r.value) && Canon(r.value, 0) && Glue(r.value, r.rest)
              && room == r.room + ExprNodes(r.value)
              && (Closed(r.value) ==> s == ExprTokens(r.value) + r.rest)
    decreases |s|, 2
  {
    hide TryCall, ReadPlace, ReadChain, PlaceNodes, ReadAtom, CanonArgs, ClosedArgs, ArgTokens, ArgNodes;
    AtomIs(s, room);
    match Head(s)
    case Tok(IDENTIFIER(_)) =>
      PlaceSound(s, room);
      match ReadPlace(s, room) {
        case Fail(_) =>
        case Ok(p, s1, room1) => TryCallSound(s1, p, room1);
      }
    case Tok(PRIMITIVE(prim)) =>
      if room > 0 {
        ChainSound(s[1..], Ctor(prim), room - 1);
        match ReadChain(s[1..], Ctor(prim), room - 1)
        case Fail(_) =>
        case Ok(p, s1, room1) =>
          assert s == PlaceTokens(Ctor(prim)) + s[1..];
          assert PlaceNodes(Ctor(prim)) == 1 by { CtorNodes(prim); }
          TryCallSound(s1, p, room1);
      }
    case _ => LeafSound(s, room);
  }

  lemma {:induction false} CtorNodes(prim: Primitive)
    ensures PlaceNodes(Ctor(prim)) == 1
  {
  }

  lemma {:induction false} ArchetypeSound(s: seq<Item>, room: nat)
    requires s != [] && (s[0] == Tok(INSERT) || s[0] == Tok(SINGLETON))
    ensures var r := ReadArchetype(s[1..], room);
            r.Ok? ==>
              && room == r.room + 1
              && (Head(r.rest) == Tok(RPAREN) ==>
                    s == [s[0], Tok(LPAREN), Tok(IDENTIFIER(r.value)), Tok(RPAREN)] + Tail(r.rest))
  {
    var r := ReadArchetype(s[1..], room);
    if r.Ok? && Head(r.rest) == Tok(RPAREN) {
      assert s == [s[0], s[1], s[2], s[3]] + s[4..];
    }
  }

  /** `p` was read and `s` follows it: what `TryCall` makes of it spells both. */
  lemma {:induction false} TryCallSound(s: seq<Item>, p: Place, room: nat)
    requires GoodPlace(p) && Head(s).Tok? && Head(s).t != DOT
    ensures var r := TryCall(s, p, room);
            r.Ok? ==>
              && IsPrimary(r.value) && Canon(r.value, 0) && Glue(r.value, r.rest)
              && room + PlaceNodes(p) == r.room + ExprNodes(r.value)
              && (Closed(r.value) ==> PlaceTokens(p) + s == ExprTokens(r.value) + r.rest)
    decreases |s|, 1
  {
    hide ReadArgs, CanonArgs, ClosedArgs, ArgTokens, PlaceTokens;
    if Head(s) == Tok(LPAREN) {
      ArgsSound(s[1..], room);
      var r := ReadArgs(s[1..], room);
      if r.Ok? && ClosedArgs(r.value) { CallStep(p, r.value, s, r.rest); }
    }
  }

  lemma {:induction false} CallStep(p: Place, args: seq<Expr>, s: seq<Item>, rest: seq<Item>)
    requires Head(s) == Tok(LPAREN) && s[1..] == ArgTokens(args) + rest
    ensures PlaceTokens(p) + s == ExprTokens(Call(p, args)) + rest
    ensures PlaceTokens(p) + s == StmtTokens(Do(p, args)) + rest
  {
    hide PlaceTokens, ArgTokens;
    assert s == [Tok(LPAREN)] + (ArgTokens(args) + rest);
  }

  lemma {:induction false} ArgsSound(s: seq<Item>, room: nat)
    ensures var r := ReadArgs(s, room);
            r.Ok? ==>
              && CanonArgs(r.value)
              && room == r.room + 1 + ArgNodes(r.value)
              && (ClosedArgs(r.value) ==> s == ArgTokens(r.value) + r.rest)
    decreases |s|, 5
  {
    hide ReadExpr, ReadMoreArgs, Canon, Closed, ExprTokens, ExprNodes, MoreArgTokens, Glue;
    if room > 0 && Head(s).Tok? {
      if Head(s).t == RPAREN {
        MoreArgsSound(s, [], room - 1);
        AllClosed(s, room - 1);
      } else {
        ExprSound(s, 0, room - 1);
        match ReadExpr(s, 0, room - 1)
        case Fail(_) =>
        case Ok(a, s1, room1) =>
          MoreArgsSound(s1, [a], room1);
          var r := ReadMoreArgs(s1, [a], room1);
          if r.Ok? {
            var more := r.value[1..];
            assert r.value[0] == r.value[..1][0] == a;
            if Closed(a) && ClosedArgs(more) {
              assert s == (ExprTokens(a) + MoreArgTokens(more)) + r.rest;
            }
          }
      }
    }
  }

  /** With `)` at once the argument loop returns what it has. */
  lemma {:induction false} AllClosed(s: seq<Item>, room: nat)
    requires Head(s) == Tok(RPAREN)
    ensures ReadMoreArgs(s, [], room) == Ok([], Tail(s), room)
    ensures s == [Tok(RPAREN)] + Tail(s)
  {
  }

  lemma {:induction false} LongerBy<T>(value: seq<T>, done: seq<T>, a: T)
    requires |value| > |done| && value[..|done| + 1] == done + [a]
    ensures value[..|done|] == done && value[|done|] == a && value[|done|..][1..] == value[|done| + 1..]
  {
    assert value[..|done|] == value[..|done| + 1][..|done|];
    assert value[|done|] == value[..|done| + 1][|done|];
  }

  lemma {:induction false} ArgStep(args: seq<Expr>, s: seq<Item>, s1: seq<Item>, rest: seq<Item>)
    requires args != [] && Head(s) == Tok(COMMA) && s[1..] == ExprTokens(args[0]) + s1
    requires s1 == MoreArgTokens(args[1..]) + rest
    ensures s == MoreArgTokens(args) + rest
  {
    hide ExprTokens;
    assert s == [Tok(COMMA)] + s[1..];
    assert s == [Tok(COMMA)] + (ExprTokens(args[0]) + MoreArgTokens(args[1..])) + rest;
  }

  lemma {:induction false} NoArgTokens(s: seq<Item>)
    requires Head(s) == Tok(RPAREN)
    ensures s == MoreArgTokens([]) + Tail(s)
  {
    assert s == [Tok(RPAREN)] + Tail(s);
  }

  lemma {:induction false} MoreArgsSound(s: seq<Item>, done: seq<Expr>, room: nat)
    ensures var r := ReadMoreArgs(s, done, room);
            r.Ok? ==>
              && |r.value| >= |done| && r.value[..|done|] == done
              && CanonArgs(r.value[|done|..])
              && room == r.room + ArgNodes(r.value[|done|..])
              && (ClosedArgs(r.value[|done|..]) ==> s == MoreArgTokens(r.value[|done|..]) + r.rest)
    decreases |s|, 0
  {
    hide ReadExpr, MoreArgTokens, Canon, Closed, ExprTokens, ExprNodes, Glue;
    if Head(s) == Tok(COMMA) {
      ExprSound(s[1..], 0, room);
      match ReadExpr(s[1..], 0, room)
      case Fail(_) =>
      case Ok(a, s1, room1) =>
        MoreArgsSound(s1, done + [a], room1);
        var r := ReadMoreArgs(s1, done + [a], room1);
        if r.Ok? {
          var new1, more := r.value[|done|..], r.value[|done| + 1..];
          LongerBy(r.value, done, a);
          if Closed(a) && ClosedArgs(more) { ArgStep(new1, s, s1, r.rest); }
        }
    } else if Head(s) == Tok(RPAREN) {
      assert done[|done|..] == [];
      assert s == MoreArgTokens([]) + Tail(s) by { NoArgTokens(s); }
    }
  }

  // ----- statements

  lemma {:induction false} TypeSound(s: seq<Item>, room: nat)
    ensures var r := ReadType(s, room); r.Ok? ==> s == TypeTokens(r.value) + r.rest && r.room == room
  {
    var r := ReadType(s, room);
    if r.Ok? {
      assert s == [s[0], s[1]] + s[2..];
    }
  }

  lemma {:induction false} OptTypeSound(s: seq<Item>, room: nat)
    ensures var r := TryReadType(s, room); r.Ok? ==> s == OptTypeTokens(r.value) + r.rest && r.room == room
  {
    hide ReadType, TypeTokens;
    if Head(s) == Tok(COLON) {
      TypeSound(s, room);
    } else {
      assert s == [] + s;
    }
  }

  lemma {:induction false} ParamSound(s: seq<Item>, room: nat)
    ensures var r := ReadParam(s, room);
            r.Ok? ==>
              && room == r.room + 1
              && s == [Tok(IDENTIFIER(r.value.name))] + (TypeTokens(r.value.ty) + r.rest)
  {
    hide ReadType, TypeTokens;
    TypeSound(Tail(s), room);
    if ReadParam(s, room).Ok? { assert s == [s[0]] + Tail(s); }
  }

  lemma {:induction false} MoreParamsSound(s: seq<Item>, done: seq<Param>, room: nat)
    ensures var r := ReadMoreParams(s, done, room);
            r.Ok? ==>
              && |r.value| > |done| && r.value[..|done|] == done
              && room == r.room + |r.value| - |done|
              && s == ParamTokens(r.value[|done|..]) + r.rest
    decreases |s|
  {
    hide ReadMoreParams, ReadParam, TypeTokens, ParamTokens;
    var r, p := ReadMoreParams(s, done, room), ReadParam(s, room);
    MoreParamsAre(s, done, room);
    if r.Ok? {
      ParamSound(s, room);
      if Head(p.rest) == Tok(COMMA) {
        MoreParamsSound(Tail(p.rest), done + [p.value], p.room);
        LongerBy(r.value, done, p.value);
        ParamStep(r.value[|done|..], [Tok(COMMA)] + ParamTokens(r.value[|done| + 1..]), s, p.rest, r.rest);
      } else {
        LastOne(done, p.value);
        ParamStep([p.value], [Tok(RPAREN)], s, p.rest, Tail(p.rest));
      }
    }
  }

  lemma {:induction false} LastOne<T>(done: seq<T>, x: T)
    ensures (done + [x])[..|done|] == done && (done + [x])[|done|..] == [x]
  {
  }

  lemma {:induction false} ParamStep(ps: seq<Param>, link: seq<Item>, s: seq<Item>, s2: seq<Item>, rest: seq<Item>)
    requires ps != [] && link == (if |ps| == 1 then [Tok(RPAREN)] else [Tok(COMMA)] + ParamTokens(ps[1..]))
    requires s == [Tok(IDENTIFIER(ps[0].name))] + (TypeTokens(ps[0].ty) + s2) && s2 == link + rest
    ensures s == ParamTokens(ps) + rest
  {
    hide TypeTokens;
  }

  lemma {:induction false} ParamsSound(s: seq<Item>, room: nat)
    ensures var r := ReadParams(s, room);
            r.Ok? ==>
              && room == r.room + |r.value|
              && s == (if r.value == [] then [Tok(RPAREN)] else ParamTokens(r.value)) + r.rest
  {
    hide ReadMoreParams, ParamTokens;
    if Head(s) == Tok(RPAREN) {
      assert s == [Tok(RPAREN)] + Tail(s);
    } else {
      MoreParamsSound(s, [], room);
      var r := ReadMoreParams(s, [], room);
      if r.Ok? { assert r.value[0..] == r.value; }
    }
  }

  lemma {:induction false} LetSound(s: seq<Item>, room: nat)
    requires Head(s) == Tok(LET)
    ensures var r := ReadLet(s[1..], room); r.Ok? ==> StmtReadsAs(s, room, r.value, r.rest, r.room)
  {
    hide StmtTokens, ReadExpr, TryReadType, ExprTokens, OptTypeTokens, Canon, Closed, ExprNodes, Glue;
    var r := ReadLet(s[1..], room);
    if r.Ok? {
      var s1 := Tail(s[1..]);
      OptTypeSound(s1, room);
      var s2 := TryReadType(s1, room).rest;
      ExprSound(Tail(s2), 0, room);
      if Closed(r.value.init) { LetStep(r.value.name, r.value.ty, r.value.init, s, s2, r.rest); }
    }
  }

  lemma {:induction false} LetStep(n: string, ty: Option<VarType>, e: Expr, s: seq<Item>, s2: seq<Item>,
      rest: seq<Item>)
    requires |s| > 1 && s[0] == Tok(LET) && s[1] == Tok(IDENTIFIER(n)) && Tail(s[1..]) == OptTypeTokens(ty) + s2
    requires Head(s2) == Tok(ASSIGN) && Tail(s2) == ExprTokens(e) + rest
    ensures s == StmtTokens(Let(n, ty, e)) + rest
  {
    hide ExprTokens, OptTypeTokens;
    assert s2 == [Tok(ASSIGN)] + (ExprTokens(e) + rest);
    assert s == [Tok(LET), Tok(IDENTIFIER(n))] + (OptTypeTokens(ty) + s2);
  }

  lemma {:induction false} SimpleSound(s: seq<Item>, room: nat)
    ensures var r := ReadSimple(s, room); r.Ok? ==> StmtReadsAs(s, room, r.value, r.rest, r.room)
  {
    hide StmtTokens, ReadExpr, ReadPlace, ReadArgs, ExprTokens, PlaceTokens, ArgTokens, Canon, Closed, CanonArgs,
      ClosedArgs, ExprNodes, PlaceNodes, ArgNodes, Glue, RootedInName;
    var r := ReadSimple(s, room);
    if r.Ok? {
      PlaceSound(s, room);
      var p, s1, room1 := ReadPlace(s, room).value, ReadPlace(s, room).rest, ReadPlace(s, room).room;
      if Head(s1) == Tok(ASSIGN) {
        ExprSound(s1[1..], 0, room1);
        if Closed(r.value.value) { AssignStep(p, r.value.value, s1, r.rest); }
      } else {
        ArgsSound(s1[1..], room1);
        if ClosedArgs(r.value.args) { CallStep(p, r.value.args, s1, r.rest); }
      }
    }
  }

  lemma {:induction false} AssignStep(p: Place, e: Expr, s: seq<Item>, rest: seq<Item>)
    requires Head(s) == Tok(ASSIGN) && s[1..] == ExprTokens(e) + rest
    ensures PlaceTokens(p) + s == StmtTokens(Assign(p, e)) + rest
  {
    hide PlaceTokens, ExprTokens;
    assert s == [Tok(ASSIGN)] + (ExprTokens(e) + rest);
  }

  lemma {:induction false} StmtSound(s: seq<Item>, room: nat)
    ensures var r := ReadStmt(s, room); r.Ok? ==> StmtReadsAs(s, room, r.value, r.rest, r.room)
    decreases |s|, 2
  {
    hide ReadExpr, ReadLet, ReadFun, ReadWhile, ReadBranches, ReadElse, ReadSimple, ReadBlock, ReadBody, ExprTokens,
      ExprNodes, Canon, Closed, Glue, BranchTokens, ElseTokens, BlockTokens, CanonBranches, CanonElse, CanonBlock,
      ClosedBranches, ClosedElse, ClosedBlock, BranchNodes, ElseNodes, BlockNodes;
    match Head(s)
    case Tok(LET) => LetSound(s, room);
    case Tok(FUNCTION) => FunSound(s, room);
    case Tok(RETURN) =>
      ExprSound(s[1..], 0, room);
      var r := ReadExpr(s[1..], 0, room);
      if r.Ok? && Closed(r.value) {
        assert s == [Tok(RETURN)] + ExprTokens(r.value) + r.rest;
      }
    case Tok(IF) =>
      if room > 0 { IfSound(s, room); }
    case Tok(WHILE) => WhileSound(s, room);
    case Tok(IDENTIFIER(_)) => SimpleSound(s, room);
    case _ =>
  }

  lemma {:induction false} WhileSound(s: seq<Item>, room: nat)
    requires Head(s) == Tok(WHILE)
    ensures var r := ReadWhile(s[1..], room); r.Ok? ==> StmtReadsAs(s, room, r.value, r.rest, r.room)
    decreases |s|, 1
  {
    hide ReadWhile, StmtTokens, ReadExpr, ReadBody, ReadBlock, ReadStmt, ExprTokens, BlockTokens, ExprNodes, BlockNodes,
      Canon, Closed, CanonBlock, ClosedBlock, Glue;
    var r := ReadWhile(s[1..], room);
    if r.Ok? {
      var c := ReadExpr(s[1..], 0, room);
      WhileSteps(s[1..], room);
      ExprSound(s[1..], 0, room);
      BodySound(Tail(c.rest), AtEnd, c.room - 1);
      var b := ReadBody(Tail(c.rest), AtEnd, c.room - 1);
      if Closed(c.value) && ClosedBlock(b.value) { WhileStep(s, c.value, c.rest, b.value, b.rest); }
    }
  }

  /** What an accepted loop was read from. */
  lemma {:induction false} WhileSteps(s: seq<Item>, room: nat)
    requires ReadWhile(s, room).Ok?
    ensures var c := ReadExpr(s, 0, room);
            && c.Ok? && c.room > 0 && Head(c.rest) == Tok(DO)
            && var b := ReadBody(Tail(c.rest), AtEnd, c.room - 1);
               b.Ok? && ReadWhile(s, room) == Ok(While(c.value, b.value), Tail(b.rest), b.room)
  {
    hide ReadExpr, ReadBody;
  }

  lemma {:induction false} WhileStep(s: seq<Item>, c: Expr, s1: seq<Item>, b: seq<Stmt>, s3: seq<Item>)
    requires Head(s) == Tok(WHILE) && s[1..] == ExprTokens(c) + s1 && Head(s1) == Tok(DO)
    requires Tail(s1) == BlockTokens(b) + s3 && Head(s3) == Tok(END)
    ensures s == StmtTokens(While(c, b)) + Tail(s3)
  {
    hide ExprTokens, BlockTokens, StmtTokens;
    assert s3 == [Tok(END)] + Tail(s3);
    assert s1 == [Tok(DO)] + (BlockTokens(b) + s3);
    assert s == [Tok(WHILE)] + (ExprTokens(c) + s1);
    WhileTokens(c, b, Tail(s3));
  }

  lemma {:induction false} WhileTokens(c: Expr, b: seq<Stmt>, rest: seq<Item>)
    ensures StmtTokens(While(c, b)) + rest
         == [Tok(WHILE)] + (ExprTokens(c) + ([Tok(DO)] + (BlockTokens(b) + ([Tok(END)] + rest))))
  {
    hide ExprTokens, BlockTokens;
  }

  lemma {:induction false} FunSound(s: seq<Item>, room: nat)
    requires Head(s) == Tok(FUNCTION)
    ensures var r := ReadFun(s[1..], room); r.Ok? ==> StmtReadsAs(s, room, r.value, r.rest, r.room)
    decreases |s|, 1
  {
    hide StmtTokens, ReadFunSignature, ReadBody, ReadBlock, ReadStmt, BlockTokens, OptTypeTokens, ParamTokens,
      BlockNodes, CanonBlock, ClosedBlock;
    var r := ReadFun(s[1..], room);
    if r.Ok? {
      var n, s1 := ExpectName(s[1..], room).value, Tail(s[1..]);
      assert r == ReadFunSignature(s1, n, room - 1);
      FunSignatureSound(s1, n, room - 1);
      if ClosedStmt(r.value) {
        FunStep(n, r.value.params, r.value.ret, r.value.body, s, s1, r.rest);
      }
    }
  }

  lemma {:induction false} FunStep(n: string, ps: seq<Param>, ret: Option<VarType>, b: seq<Stmt>, s: seq<Item>,
                 s1: seq<Item>, rest: seq<Item>)
    requires |s| > 1 && s[0] == Tok(FUNCTION) && s[1] == Tok(IDENTIFIER(n)) && s1 == Tail(s[1..])
    requires s1 == [Tok(LPAREN)] + ((if ps == [] then [Tok(RPAREN)] else ParamTokens(ps))
                     + (OptTypeTokens(ret) + (BlockTokens(b) + ([Tok(END)] + rest))))
    ensures s == StmtTokens(Fun(n, ps, ret, b)) + rest
  {
    hide BlockTokens, OptTypeTokens, ParamTokens;
    var pars := if ps == [] then [Tok(RPAREN)] else ParamTokens(ps);
    FunSpells(n, pars, OptTypeTokens(ret), BlockTokens(b), rest);
    assert s == [Tok(FUNCTION), Tok(IDENTIFIER(n))] + s1;
  }

  lemma {:induction false} FunSignatureSound(s: seq<Item>, n: string, room: nat)
    ensures var r := ReadFunSignature(s, n, room);
            r.Ok? ==>
              && r.value.Fun? && r.value.name == n && CanonBlock(r.value.body)
              && room == r.room + |r.value.params| + 1 + BlockNodes(r.value.body)
              && (ClosedBlock(r.value.body) ==>
                    s == [Tok(LPAREN)]
                         + ((if r.value.params == [] then [Tok(RPAREN)] else ParamTokens(r.value.params))
                            + (OptTypeTokens(r.value.ret) + (BlockTokens(r.value.body) + ([Tok(END)] + r.rest)))))
    decreases |s|, 7
  {
    hide ReadFunRest, ReadBody, ReadBlock, ReadStmt, ReadParams, BlockTokens, OptTypeTokens, ParamTokens, BlockNodes,
      CanonBlock, ClosedBlock;
    var r := ReadFunSignature(s, n, room);
    if r.Ok? {
      ParamsSound(Tail(s), room);
      var ps := ReadParams(Tail(s), room);
      assert r == ReadFunRest(ps.rest, n, ps.value, ps.room);
      FunRestSound(ps.rest, n, ps.value, ps.room);
      assert s == [Tok(LPAREN)] + Tail(s);
    }
  }

  lemma {:induction false} FunRestSound(s: seq<Item>, n: string, ps: seq<Param>, room: nat)
    ensures var r := ReadFunRest(s, n, ps, room);
            r.Ok? ==>
              && r.value.Fun? && r.value.name == n && r.value.params == ps && CanonBlock(r.value.body)
              && room == r.room + 1 + BlockNodes(r.value.body)
              && (ClosedBlock(r.value.body) ==>
                    s == OptTypeTokens(r.value.ret) + (BlockTokens(r.value.body) + ([Tok(END)] + r.rest)))
    decreases |s|, 6
  {
    hide TryReadType, ReadBody, ReadBlock, ReadStmt, OptTypeTokens, BlockTokens, BlockNodes, CanonBlock, ClosedBlock;
    var r := ReadFunRest(s, n, ps, room);
    if r.Ok? {
      OptTypeSound(s, room);
      var s1 := TryReadType(s, room).rest;
      BodySound(s1, AtEnd, room);
      var s2 := ReadBody(s1, AtEnd, room).rest;
      assert s2 == [Tok(END)] + r.rest;
    }
  }

  lemma {:induction false} FunSpells(n: string, pars: seq<Item>, ty: seq<Item>, body: seq<Item>, rest: seq<Item>)
    ensures ([Tok(FUNCTION), Tok(IDENTIFIER(n)), Tok(LPAREN)] + (pars + (ty + (body + [Tok(END)])))) + rest
         == [Tok(FUNCTION), Tok(IDENTIFIER(n)), Tok(LPAREN)] + (pars + (ty + (body + ([Tok(END)] + rest))))
  {
  }

  lemma {:induction false} BodySound(s: seq<Item>, k: Stop, room: nat)
    ensures var r := ReadBody(s, k, room);
            r.Ok? ==>
              && Head(r.rest).Tok? && StopsAt(k, Head(r.rest).t)
              && CanonBlock(r.value) && room == r.room + 1 + BlockNodes(r.value)
              && (ClosedBlock(r.value) ==> s == BlockTokens(r.value) + r.rest)
    decreases |s|, 4
  {
    hide ReadBlock, BlockTokens, BlockNodes, CanonBlock, ClosedBlock;
    if room > 0 {
      BlockSound(s, k, [], room - 1);
      var r := ReadBlock(s, k, [], room - 1);
      if r.Ok? { assert r.value[0..] == r.value; }
    }
  }

  lemma {:induction false} NoBlockTokens(s: seq<Item>)
    ensures BlockTokens([]) + s == s
  {
  }

  lemma {:induction false} BlockBad(s: seq<Item>, k: Stop, done: seq<Stmt>, room: nat)
    requires Head(s).Bad?
    ensures ReadBlock(s, k, done, room).Fail?
  {
  }

  lemma {:induction false} BlockFails(s: seq<Item>, k: Stop, done: seq<Stmt>, room: nat)
    requires Head(s).Tok? && !StopsAt(k, Head(s).t) && ReadStmt(s, room).Fail?
    ensures ReadBlock(s, k, done, room).Fail?
  {
    hide ReadStmt;
  }

  lemma {:induction false} BlockStep(b: seq<Stmt>, s: seq<Item>, s1: seq<Item>, rest: seq<Item>)
    requires b != [] && s == StmtTokens(b[0]) + s1 && s1 == BlockTokens(b[1..]) + rest
    ensures s == BlockTokens(b) + rest
  {
    hide StmtTokens;
    assert s == (StmtTokens(b[0]) + BlockTokens(b[1..])) + rest;
  }

  lemma {:induction false} BlockSound(s: seq<Item>, k: Stop, done: seq<Stmt>, room: nat)
    ensures var r := ReadBlock(s, k, done, room);
            r.Ok? ==>
              && |r.value| >= |done| && r.value[..|done|] == done
              && CanonBlock(r.value[|done|..])
              && room == r.room + BlockNodes(r.value[|done|..])
              && (ClosedBlock(r.value[|done|..]) ==> s == BlockTokens(r.value[|done|..]) + r.rest)
    decreases |s|, 3
  {
    hide ReadBlock, BlockTokens, ReadStmt, CanonStmt, ClosedStmt, StmtTokens, StmtNodes, StmtFollows;
    if Head(s).Bad? {
      BlockBad(s, k, done, room);
    } else {
      if StopsAt(k, Head(s).t) {
        BlockEnds(s, k, done, room);
        assert done[|done|..] == [] && done[..|done|] == done;
        assert BlockTokens([]) + s == s by { NoBlockTokens(s); }
      } else {
        StmtSound(s, room);
        match ReadStmt(s, room)
        case Fail(_) => BlockFails(s, k, done, room);
        case Ok(st, s1, room1) =>
          BlockGoesOn(s, k, done, room);
          BlockSound(s1, k, done + [st], room1);
          var r := ReadBlock(s1, k, done + [st], room1);
          if r.Ok? {
            var new1, more := r.value[|done|..], r.value[|done| + 1..];
            LongerBy(r.value, done, st);
            if ClosedStmt(st) && ClosedBlock(more) { BlockStep(new1, s, s1, r.rest); }
          }
      }
    }
  }

  lemma {:induction false} IfSound(s: seq<Item>, room: nat)
    requires Head(s) == Tok(IF) && room > 0
    ensures var r := ReadBranches(s[1..], [], room - 1); r.Ok? ==> StmtReadsAs(s, room, r.value, r.rest, r.room)
    decreases |s|, 1
  {
    hide ReadBranches, BranchTokens, ElseTokens, CanonBranches, CanonElse, ClosedBranches, ClosedElse, BranchNodes,
      ElseNodes;
    BranchesSound(s[1..], [], room - 1);
    var r := ReadBranches(s[1..], [], room - 1);
    if r.Ok? {
      var bs, els := r.value.branches, r.value.otherwise;
      assert bs[0..] == bs;
      if ClosedBranches(bs) && ClosedElse(els) {
        IfTokens(bs, els, r.rest);
        assert s == [Tok(IF)] + s[1..];
      }
    }
  }

  lemma {:induction false} BranchesSound(s: seq<Item>, done: seq<Branch>, room: nat)
    ensures var r := ReadBranches(s, done, room);
            r.Ok? ==>
              && r.value.If? && |r.value.branches| > |done| && r.value.branches[..|done|] == done
              && CanonBranches(r.value.branches[|done|..]) && CanonElse(r.value.otherwise)
              && room == r.room + BranchNodes(r.value.branches[|done|..]) + ElseNodes(r.value.otherwise)
              && (ClosedBranches(r.value.branches[|done|..]) && ClosedElse(r.value.otherwise) ==>
                    s == BranchTokens(r.value.branches[|done|..]) + (ElseTokens(r.value.otherwise) + r.rest))
    decreases |s|, 5
  {
    hide ReadBranches, ReadExpr, ReadBody, ReadBlock, ReadElse, ExprTokens, BlockTokens, BranchTokens, ElseTokens,
      ExprNodes, BlockNodes, ElseNodes, Canon, Closed, CanonBlock, ClosedBlock, CanonElse, ClosedElse, Glue;
    BranchSteps1(s, done, room);
    var r := ReadBranches(s, done, room);
    if r.Ok? {
      ExprSound(s, 0, room);
      var c, s1, room1 := ReadExpr(s, 0, room).value, ReadExpr(s, 0, room).rest, ReadExpr(s, 0, room).room;
      var s2 := Tail(s1);
      BodySound(s2, AtBranch, room1);
      var y := ReadBody(s2, AtBranch, room1);
      var b, s3, room3 := y.value, y.rest, y.room;
      var now := done + [Branch(c, b)];
      if Head(s3) == Tok(ELIF) {
        BranchesSound(s3[1..], now, room3);
      } else {
        ElseSound(s3, now, room3);
        assert now[|now|..] == [] && now[..|now|] == now;
      }
      BranchUnroll(done, c, b, r.value.branches);
      var new1, more := r.value.branches[|done|..], r.value.branches[|now|..];
      if Closed(c) && ClosedBlock(b) && ClosedBranches(more) && ClosedElse(r.value.otherwise) {
        var tail := ElseTokens(r.value.otherwise) + r.rest;
        assert s1 == [Tok(THEN)] + s2;
        BranchGlue(new1, s, s3, tail);
      }
    }
  }

  /** `ReadBranches` is one round and then either the next branch or the end. */
  lemma {:induction false} BranchSteps1(s: seq<Item>, done: seq<Branch>, room: nat)
    ensures var r := ReadBranches(s, done, room);
            r.Ok? ==>
              && ReadExpr(s, 0, room).Ok? && Head(ReadExpr(s, 0, room).rest) == Tok(THEN)
              && ReadBody(Tail(ReadExpr(s, 0, room).rest), AtBranch, ReadExpr(s, 0, room).room).Ok?
              && var x := ReadExpr(s, 0, room);
                 var y := ReadBody(Tail(x.rest), AtBranch, x.room);
                 var now := done + [Branch(x.value, y.value)];
                 |y.rest| < |s|
                 && r == (if Head(y.rest) == Tok(ELIF) then ReadBranches(y.rest[1..], now, y.room)
                          else ReadElse(y.rest, now, y.room))
  {
    hide ReadExpr, ReadBody, ReadBlock, ReadElse;
  }

  lemma {:induction false} BranchUnroll(done: seq<Branch>, c: Expr, b: seq<Stmt>, bs: seq<Branch>)
    requires |bs| > |done| && bs[..|done| + 1] == done + [Branch(c, b)]
    ensures bs[..|done|] == done && bs[|done|..] != [] && bs[|done|..][0] == Branch(c, b)
    ensures bs[|done|..][1..] == bs[|done| + 1..]
  {
    assert bs[..|done|] == bs[..|done| + 1][..|done|];
    assert bs[|done|] == bs[..|done| + 1][|done|];
  }

  lemma {:induction false} BranchGlue(bs: seq<Branch>, s: seq<Item>, s3: seq<Item>, tail: seq<Item>)
    requires bs != []
    requires s == ExprTokens(bs[0].cond) + ([Tok(THEN)] + (BlockTokens(bs[0].body) + s3))
    requires s3 == (if bs[1..] == [] then tail else [Tok(ELIF)] + (BranchTokens(bs[1..]) + tail))
    ensures s == BranchTokens(bs) + tail
  {
    hide ExprTokens, BlockTokens, MoreBranchTokens;
    MoreBranchesStart(bs[1..], tail);
    Regroup(ExprTokens(bs[0].cond), Tok(THEN), BlockTokens(bs[0].body), MoreBranchTokens(bs[1..]), tail);
  }

  lemma {:induction false} ElseSound(s: seq<Item>, done: seq<Branch>, room: nat)
    ensures var r := ReadElse(s, done, room);
            r.Ok? ==>
              && r.value.If? && r.value.branches == done && CanonElse(r.value.otherwise)
              && room == r.room + ElseNodes(r.value.otherwise)
              && (ClosedElse(r.value.otherwise) ==> s == ElseTokens(r.value.otherwise) + r.rest)
    decreases |s|, 5
  {
    hide ReadBody, ReadBlock, BlockTokens, BlockNodes, CanonBlock, ClosedBlock;
    if Head(s) == Tok(ELSE) {
      BodySound(s[1..], AtBranch, room);
      var r := ReadElse(s, done, room);
      if r.Ok? && ClosedElse(r.value.otherwise) {
        var b := r.value.otherwise.body;
        assert s[1..] == BlockTokens(b) + ([Tok(END)] + r.rest);
        assert s == [Tok(ELSE)] + (BlockTokens(b) + ([Tok(END)] + r.rest));
        assert s == ElseTokens(Else(b)) + r.rest;
      }
    } else if Head(s) == Tok(END) {
      assert s == [Tok(END)] + Tail(s);
    }
  }

  // ----- exactness

  /** The expression parser reads exactly the canonical trees: it returns `e` and
      `rest` if and only if the operator tables allow `e`, `e` spells what was
      consumed, nothing in `rest` extends it, and the arena had room for it. */
  lemma {:induction false} ExprExact(s: seq<Item>, min: nat, room: nat, e: Expr, rest: seq<Item>, room1: nat)
    requires Closed(e)
    ensures ReadExpr(s, min, room) == Ok(e, rest, room1)
       <==> s == ExprTokens(e) + rest && Canon(e, min) && Follows(e, min, rest) && room == room1 + ExprNodes(e)
  {
    hide ReadExpr, Canon, ExprTokens, ExprNodes, Glue, Closed;
    ExprSound(s, min, room);
    if s == ExprTokens(e) + rest && Canon(e, min) && Follows(e, min, rest) && room == room1 + ExprNodes(e) {
      ExprReads(e, min, rest, room);
    }
  }

  /** The module parser accepts exactly the spellings of canonical programs. */
  lemma {:induction false} ModuleExact(s: seq<Item>, room: nat, b: seq<Stmt>, room1: nat)
    requires Proper(s) && ClosedBlock(b)
    ensures ReadModule(s, room) == Ok(b, [], room1)
       <==> s == BlockTokens(b) && CanonBlock(b) && room == room1 + BlockNodes(b)
  {
    hide ReadBlock, CanonBlock, BlockTokens, BlockNodes, ClosedBlock;
    ModuleSound(s, room);
    if s == BlockTokens(b) && CanonBlock(b) && room == room1 + BlockNodes(b) {
      ModuleReads(b, room);
    }
  }

  /** What the module parser accepts is canonical and fills its nodes, whether or
      not an `insert(` lost its `)`. */
  lemma {:induction false} ModuleSound(s: seq<Item>, room: nat)
    requires Proper(s)
    ensures var r := ReadModule(s, room);
            r.Ok? ==>
              && CanonBlock(r.value) && room == r.room + BlockNodes(r.value)
              && (ClosedBlock(r.value) ==> s == BlockTokens(r.value) && r.rest == [])
  {
    hide ReadBlock, CanonBlock, BlockTokens, BlockNodes, ClosedBlock;
    BlockSound(s, AtEof, [], room);
    var r := ReadBlock(s, AtEof, [], room);
    if r.Ok? {
      assert r.value[0..] == r.value;
      if ClosedBlock(r.value) {
        assert r.rest == s[|BlockTokens(r.value)|..];
        assert BlockTokens(r.value) + [] == BlockTokens(r.value);
      }
    }
  }

  /** No two canonical programs spell the same tokens. */
  lemma {:induction false} ModuleUnique(a: seq<Stmt>, b: seq<Stmt>)
    requires CanonBlock(a) && CanonBlock(b) && ClosedBlock(a) && ClosedBlock(b)
    requires BlockTokens(a) == BlockTokens(b)
    ensures a == b
  {
    hide CanonBlock, BlockTokens, BlockNodes, ClosedBlock, ReadModule;
    var room := BlockNodes(a) + BlockNodes(b);
    ModuleReads(a, room);
    ModuleReads(b, room);
  }
}

/** Exactly when the C parser is undefined: it loops on an import at the head, and goes on
    with an uninitialised or stale node after a statement that it does not implement. */
module Supported {
  import opened Options
  import opened Tokens
  import opened Operators
  import opened Syntax
  import opened Reading
  import opened Canonical
  import opened Sound
  import opened Closing
  import opened Mending
  import opened Opening
  import Scanning

  /** The errors that only a statement gives. */
  predicate OfStatements(e: Error) {
    e == UNDEFINED || e == NON_STATEMENT_TOKEN
  }

  /** No marker of these: the lexer makes none. */
  predicate Unmarked(s: seq<Item>) {
    forall i :: 0 <= i < |s| && s[i].Bad? ==> !OfStatements(s[i].e)
  }

  /** The reading gives none of them, and so it will be with what follows. */
  predicate Fine<T>(r: Outcome<T>) {
    match r
    case Ok(_, rest, _) => Unmarked(rest)
    case Fail(e) => !OfStatements(e)
  }

  lemma {:induction false} UnmarkedTail(s: seq<Item>)
    requires Unmarked(s)
    ensures Unmarked(Tail(s)) && (s != [] ==> Unmarked(s[1..]))
    ensures Head(s).Bad? ==> !OfStatements(Head(s).e)
  {
  }

  lemma {:induction false} ExpectFine(s: seq<Item>, t: Token, room: nat)
    requires Unmarked(s)
    ensures Fine(Expect(s, t, room))
  {
    hide Unmarked;
    UnmarkedTail(s);
  }

  lemma {:induction false} NameFine(s: seq<Item>, room: nat)
    requires Unmarked(s)
    ensures Fine(ExpectName(s, room))
  {
    hide Unmarked;
    UnmarkedTail(s);
  }

  lemma {:induction false} TypeFine(s: seq<Item>, room: nat)
    requires Unmarked(s)
    ensures Fine(ReadType(s, room)) && Fine(TryReadType(s, room))
  {
    hide Unmarked;
    UnmarkedTail(s);
    UnmarkedTail(Tail(s));
  }

  lemma {:induction false} ChainFine(s: seq<Item>, p: Place, room: nat)
    requires Unmarked(s)
    ensures Fine(ReadChain(s, p, room))
    decreases |s|
  {
    hide Unmarked;
    UnmarkedTail(s);
    if Head(s) == Tok(DOT) {
      UnmarkedTail(Tail(s));
      var r := ReadLink(s, p, room);
      if r.Ok? { ChainFine(r.rest, r.value, r.room); }
    }
  }

  lemma {:induction false} PlaceFine(s: seq<Item>, room: nat)
    requires Unmarked(s)
    ensures Fine(ReadPlace(s, room))
  {
    hide Unmarked, ReadChain;
    NameFine(s, room);
    var n := ExpectName(s, room);
    if n.Ok? && room > 0 { ChainFine(n.rest, Sym(n.value), room - 1); }
  }

  lemma {:induction false} ExprFine(s: seq<Item>, min: nat, room: nat)
    requires Unmarked(s)
    ensures Fine(ReadExpr(s, min, room))
    decreases |s|, 4
  {
    hide Unmarked, Climb, ReadPrimary;
    PrimaryFine(s, room);
    var r := ReadPrimary(s, room);
    if r.Ok? { ClimbFine(r.rest, min, r.value, r.room); }
  }

  lemma {:induction false} ClimbFine(s: seq<Item>, min: nat, lhs: Expr, room: nat)
    requires Unmarked(s)
    ensures Fine(Climb(s, min, lhs, room))
    decreases |s|, 0
  {
    hide Unmarked, ReadExpr, ReadPrimary;
    UnmarkedTail(s);
    if Head(s).Tok? && IsBinop(Head(s).t) && Precedence(Head(s).t) >= min {
      var t := Head(s).t;
      ExprFine(s[1..], NextMin(t), room);
      var r := ReadExpr(s[1..], NextMin(t), room);
      if r.Ok? && r.room > 0 { ClimbFine(r.rest, min, Bin(BinopFromToken(t), lhs, r.value), r.room - 1); }
    }
  }

  lemma {:induction false} PrimaryFine(s: seq<Item>, room: nat)
    requires Unmarked(s)
    ensures Fine(ReadPrimary(s, room))
    decreases |s|, 3
  {
    hide Unmarked, ReadExpr, ReadAtom;
    UnmarkedTail(s);
    if Head(s).Tok? {
      var t := Head(s).t;
      if t == LPAREN {
        ExprFine(s[1..], 1, room);
        var r := ReadExpr(s[1..], 1, room);
        if r.Ok? { ExpectFine(r.rest, RPAREN, r.room); }
      } else if IsUnop(t) {
        PrimaryFine(s[1..], room);
      } else if !IsBinop(t) {
        AtomFine(s, room);
      }
    }
  }

  lemma {:induction false} AtomFine(s: seq<Item>, room: nat)
    requires Unmarked(s)
    ensures Fine(ReadAtom(s, room))
    decreases |s|, 2
  {
    hide Unmarked, TryCall, ReadPlace, ReadChain, ReadArchetype;
    UnmarkedTail(s);
    match Head(s)
    case Tok(IDENTIFIER(_)) =>
      PlaceFine(s, room);
      var r := ReadPlace(s, room);
      if r.Ok? { CallFine(r.rest, r.value, r.room); }
    case Tok(PRIMITIVE(prim)) =>
      if room > 0 {
        ChainFine(s[1..], Ctor(prim), room - 1);
        var r := ReadChain(s[1..], Ctor(prim), room - 1);
        if r.Ok? { CallFine(r.rest, r.value, r.room); }
      }
    case Tok(INSERT) => ArchetypeFine(s[1..], room);
    case Tok(SINGLETON) => ArchetypeFine(s[1..], room);
    case _ =>
  }

  lemma {:induction false} ArchetypeFine(s: seq<Item>, room: nat)
    requires Unmarked(s)
    ensures var r := ReadArchetype(s, room); Fine(r) && (r.Ok? ==> Unmarked(Tail(r.rest)))
  {
    hide Unmarked;
    UnmarkedTail(s);
    NameFine(Tail(s), room);
    var r := ReadArchetype(s, room);
    if r.Ok? { UnmarkedTail(r.rest); }
  }

  lemma {:induction false} CallFine(s: seq<Item>, p: Place, room: nat)
    requires Unmarked(s)
    ensures Fine(TryCall(s, p, room))
    decreases |s|, 1
  {
    hide Unmarked, ReadArgs;
    UnmarkedTail(s);
    if Head(s) == Tok(LPAREN) { ArgsFine(s[1..], room); }
  }

  lemma {:induction false} ArgsFine(s: seq<Item>, room: nat)
    requires Unmarked(s)
    ensures Fine(ReadArgs(s, room))
    decreases |s|, 5
  {
    hide Unmarked, ReadExpr, ReadMoreArgs;
    UnmarkedTail(s);
    if room > 0 && Head(s).Tok? {
      if Head(s).t == RPAREN {
        MoreArgsFine(s, [], room - 1);
      } else {
        ExprFine(s, 0, room - 1);
        var r := ReadExpr(s, 0, room - 1);
        if r.Ok? { MoreArgsFine(r.rest, [r.value], r.room); }
      }
    }
  }

  lemma {:induction false} MoreArgsFine(s: seq<Item>, done: seq<Expr>, room: nat)
    requires Unmarked(s)
    ensures Fine(ReadMoreArgs(s, done, room))
    decreases |s|, 0
  {
    hide Unmarked, ReadExpr;
    UnmarkedTail(s);
    if Head(s) == Tok(COMMA) {
      ExprFine(s[1..], 0, room);
      var r := ReadExpr(s[1..], 0, room);
      if r.Ok? { MoreArgsFine(r.rest, done + [r.value], r.room); }
    }
  }

  lemma {:induction false} MoreParamsFine(s: seq<Item>, done: seq<Param>, room: nat)
    requires Unmarked(s)
    ensures Fine(ReadMoreParams(s, done, room))
    decreases |s|
  {
    hide Unmarked, ReadParam;
    ParamFine(s, room);
    var r := ReadParam(s, room);
    if r.Ok? {
      UnmarkedTail(r.rest);
      if Head(r.rest) == Tok(COMMA) { MoreParamsFine(r.rest[1..], done + [r.value], r.room); }
    }
  }

  lemma {:induction false} ParamFine(s: seq<Item>, room: nat)
    requires Unmarked(s)
    ensures Fine(ReadParam(s, room))
  {
    hide Unmarked, ReadType;
    NameFine(s, room);
    var n := ExpectName(s, room);
    if n.Ok? { TypeFine(n.rest, room); }
  }

  lemma {:induction false} LetFine(s: seq<Item>, room: nat)
    requires Unmarked(s)
    ensures Fine(ReadLet(s, room))
  {
    hide Unmarked, ReadExpr, ReadLetHead;
    LetHeadFine(s, room);
    var h := ReadLetHead(s, room);
    if h.Ok? { ExprFine(h.rest, 0, room); }
  }

  lemma {:induction false} LetHeadFine(s: seq<Item>, room: nat)
    requires Unmarked(s)
    ensures Fine(ReadLetHead(s, room))
  {
    hide Unmarked, TryReadType;
    NameFine(s, room);
    var n := ExpectName(s, room);
    if n.Ok? {
      TypeFine(n.rest, room);
      var ty := TryReadType(n.rest, room);
      if ty.Ok? { ExpectFine(ty.rest, ASSIGN, room); }
    }
  }

  lemma {:induction false} SimpleFine(s: seq<Item>, room: nat)
    requires Unmarked(s)
    ensures Fine(ReadSimple(s, room))
  {
    hide Unmarked, ReadExpr, ReadPlace, ReadArgs;
    PlaceFine(s, room);
    var r := ReadPlace(s, room);
    if r.Ok? {
      UnmarkedTail(r.rest);
      if Head(r.rest) == Tok(ASSIGN) { ExprFine(r.rest[1..], 0, r.room); }
      if Head(r.rest) == Tok(LPAREN) { ArgsFine(r.rest[1..], r.room); }
    }
  }

  // ----- a reading that fails so has come to something that is no statement

  ghost predicate Good(s: seq<Item>) {
    WellClosed(s) && Unmarked(s)
  }

  lemma {:induction false} GoodSuffix(a: seq<Item>, s: seq<Item>)
    requires Good(a + s)
    ensures Good(s)
    decreases a
  {
    if a == [] {
      assert a + s == s;
    } else {
      assert (a + s)[1..] == a[1..] + s;
      GoodSuffix(a[1..], s);
    }
  }

  lemma {:induction false} GoodTail(s: seq<Item>)
    requires Good(s)
    ensures Good(Tail(s)) && (s != [] ==> Good(s[1..])) && Unmarked(s)
    ensures Head(s).Bad? ==> !OfStatements(Head(s).e)
  {
    if s != [] { assert WellClosed(s[1..]); }
  }

  /** An expression read off a good stream is spelled there. */
  lemma {:induction false} ExprTaken(s: seq<Item>, min: nat, room: nat)
    requires Good(s)
    ensures match ReadExpr(s, min, room)
            case Fail(e) => !OfStatements(e)
            case Ok(x, rest, room1) =>
              s == ExprTokens(x) + rest && Canon(x, min) && Closed(x) && room == room1 + ExprNodes(x) && Good(rest)
  {
    hide ReadExpr, WellClosed, Unmarked, Canon, Closed, ExprTokens, ExprNodes, Follows;
    assert WellClosed(s) && Unmarked(s);
    ExprFine(s, min, room);
    ExprSound(s, min, room);
    ExprKeeps(s, min, room);
    var r := ReadExpr(s, min, room);
    if r.Ok? { GoodSuffix(ExprTokens(r.value), r.rest); }
  }

  /** Nothing that follows a statement goes on with it. */
  lemma {:induction false} StmtStops(s: seq<Item>, room: nat)
    requires ReadStmt(s, room).Ok?
    ensures StmtFollows(ReadStmt(s, room).value, ReadStmt(s, room).rest)
  {
    hide ReadExpr, ReadBranches, ReadLetHead, ReadPlace, ReadArgs, ReadWhileRest, ReadFunSignature, Follows, ExprTokens,
      ExprNodes, Canon, Closed;
    match Head(s)
    case Tok(LET) => if ReadLetHead(s[1..], room).Ok? { ExprSound(ReadLetHead(s[1..], room).rest, 0, room); }
    case Tok(RETURN) => ExprSound(s[1..], 0, room);
    case Tok(IDENTIFIER(_)) =>
      var p := ReadPlace(s, room);
      if Head(p.rest) == Tok(ASSIGN) { ExprSound(p.rest[1..], 0, p.room); }
    case _ => OtherStmt(s, room);
  }

  lemma {:induction false} OtherStmt(s: seq<Item>, room: nat)
    requires ReadStmt(s, room).Ok? && Head(s) in {Tok(FUNCTION), Tok(IF), Tok(WHILE)}
    ensures var st := ReadStmt(s, room).value; st.Fun? || st.If? || st.While?
  {
    hide ReadBranches, ReadFun, ReadWhile;
    if Head(s) == Tok(IF) && room > 0 { BranchesGiveIf(s[1..], [], room - 1); }
    if Head(s) == Tok(FUNCTION) { FunGivesFun(s[1..], room); }
    if Head(s) == Tok(WHILE) { WhileGivesWhile(s[1..], room); }
  }

  lemma {:induction false} FunGivesFun(s: seq<Item>, room: nat)
    ensures var r := ReadFun(s, room); r.Ok? ==> r.value.Fun?
  {
    hide ReadFunSignature;
    var n := ExpectName(s, room);
    if n.Ok? && room > 0 { SignatureGivesFun(n.rest, n.value, room - 1); }
  }

  lemma {:induction false} SignatureGivesFun(s: seq<Item>, n: string, room: nat)
    ensures var r := ReadFunSignature(s, n, room); r.Ok? ==> r.value.Fun?
  {
    hide ReadParams, ReadFunRest;
    var ps := ReadParams(Tail(s), room);
    if ps.Ok? { FunRestGivesFun(ps.rest, n, ps.value, ps.room); }
  }

  lemma {:induction false} FunRestGivesFun(s: seq<Item>, n: string, ps: seq<Param>, room: nat)
    ensures var r := ReadFunRest(s, n, ps, room); r.Ok? ==> r.value.Fun?
  {
    hide TryReadType, ReadBody;
  }

  lemma {:induction false} WhileGivesWhile(s: seq<Item>, room: nat)
    ensures var r := ReadWhile(s, room); r.Ok? ==> r.value.While?
  {
    hide ReadExpr, ReadBody;
  }

  lemma {:induction false} BranchesGiveIf(s: seq<Item>, done: seq<Branch>, room: nat)
    ensures var r := ReadBranches(s, done, room); r.Ok? ==> r.value.If?
    decreases |s|
  {
    hide ReadBranch, ReadBody;
    var r := ReadBranch(s, room);
    if r.Ok? && Head(r.rest) == Tok(ELIF) { BranchesGiveIf(r.rest[1..], done + [r.value], r.room); }
  }

  lemma {:induction false} StmtTaken(s: seq<Item>, room: nat)
    requires Good(s) && ReadStmt(s, room).Ok?
    ensures var r := ReadStmt(s, room);
            && s == StmtTokens(r.value) + r.rest && CanonStmt(r.value) && ClosedStmt(r.value)
            && room == r.room + StmtNodes(r.value) && Good(r.rest) && StmtFollows(r.value, r.rest)
  {
    hide ReadStmt, WellClosed, Unmarked, CanonStmt, ClosedStmt, StmtTokens, StmtNodes, StmtFollows;
    StmtStops(s, room);
    assert WellClosed(s);
    StmtSound(s, room);
    StmtKeeps(s, room);
    var r := ReadStmt(s, room);
    GoodSuffix(StmtTokens(r.value), r.rest);
  }

  lemma {:induction false} BodyTaken(s: seq<Item>, k: Stop, room: nat)
    requires Good(s) && ReadBody(s, k, room).Ok?
    ensures var r := ReadBody(s, k, room);
            && s == BlockTokens(r.value) + r.rest && CanonBlock(r.value) && ClosedBlock(r.value)
            && room == r.room + 1 + BlockNodes(r.value) && Good(r.rest)
  {
    hide ReadBody, WellClosed, Unmarked, CanonBlock, ClosedBlock, BlockTokens, BlockNodes;
    assert WellClosed(s);
    BodySound(s, k, room);
    BodyKeeps(s, k, room);
    var r := ReadBody(s, k, room);
    GoodSuffix(BlockTokens(r.value), r.rest);
  }

  lemma {:induction false} ExpectTaken(s: seq<Item>, t: Token, room: nat)
    requires Good(s)
    ensures var r := Expect(s, t, room);
            (r.Fail? ==> !OfStatements(r.error)) && (r.Ok? && t != EOF ==> s == [Tok(t)] + Tail(s) && Good(r.rest))
  {
    hide Good;
    GoodTail(s);
  }

  lemma {:induction false} BranchTaken(s: seq<Item>, room: nat)
    requires Good(s) && ReadBranch(s, room).Ok?
    ensures var r := ReadBranch(s, room);
            && s == OneBranch(r.value) + r.rest && CanonBranch(r.value) && Good(r.rest)
            && room == r.room + ExprNodes(r.value.cond) + 1 + BlockNodes(r.value.body)
  {
    hide ReadExpr, ReadBody, Good, Canon, Closed, ExprTokens, ExprNodes, CanonBlock, ClosedBlock, BlockTokens,
      BlockNodes;
    ExprTaken(s, 0, room);
    var c := ReadExpr(s, 0, room);
    ExpectTaken(c.rest, THEN, c.room);
    var s2 := Tail(c.rest);
    BodyTaken(s2, AtBranch, c.room);
    var b := ReadBody(s2, AtBranch, c.room);
    assert s == (ExprTokens(c.value) + ([Tok(THEN)] + BlockTokens(b.value))) + b.rest;
  }

  /** Where a body stops at `k`, this begins a statement that is not implemented, or none. */
  predicate Halts(k: Stop, i: Item, e: Error) {
    && i.Tok? && !StopsAt(k, i.t)
    && if IsUnsupported(i) then e == UNDEFINED else e == NON_STATEMENT_TOKEN && !StartsStmt(i.t)
  }

  /** The stream spells the open program and goes on with such a token. */
  ghost predicate OpensAt(s: seq<Item>, k: Stop, o: Open, rest: seq<Item>, room: nat, e: Error) {
    && s == OpenTokens(o) + rest && Ends(o, rest) && Halts(Inner(o, k), Head(rest), e)
    && CanonOpen(o) && OpenNodes(o) <= room
  }

  ghost predicate IfOpensAt(s: seq<Item>, p: OpenIf, rest: seq<Item>, room: nat, e: Error) {
    && s == OpenIfTokens(p) + rest && IfEnds(p, rest) && Halts(InnerIf(p), Head(rest), e)
    && CanonOpenIf(p) && OpenIfNodes(p) <= room
  }

  lemma {:induction false} BodyOpens(s: seq<Item>, k: Stop, room: nat, e: Error) returns (o: Open, rest: seq<Item>)
    requires OfStatements(e) && Good(s) && ReadBody(s, k, room) == Fail(e)
    ensures room > 0 && OpensAt(s, k, o, rest, room - 1, e)
    decreases |s|, 4
  {
    hide ReadBlock, Good, OpensAt;
    o, rest := BlockOpens(s, k, [], room - 1, e);
  }

  lemma {:induction false} BlockOpens(s: seq<Item>, k: Stop, done: seq<Stmt>, room: nat, e: Error)
    returns (o: Open, rest: seq<Item>)
    requires OfStatements(e) && Good(s) && ReadBlock(s, k, done, room) == Fail(e)
    ensures OpensAt(s, k, o, rest, room, e)
    decreases |s|, 3
  {
    hide ReadStmt, Good, StmtTokens, StmtNodes, CanonStmt, ClosedStmt, OpensAt;
    GoodTail(s);
    var r := ReadStmt(s, room);
    if r.Ok? {
      StmtTaken(s, room);
      o, rest := BlockOpens(r.rest, k, done + [r.value], r.room, e);
      PastOpens(s, k, r.value, r.rest, o, rest, room, e);
      o := Past(r.value, o);
    } else {
      o, rest := StmtOpens(s, k, room, e);
    }
  }

  lemma {:induction false} PastOpens(s: seq<Item>, k: Stop, st: Stmt, s1: seq<Item>, o: Open, rest: seq<Item>,
      room: nat, e: Error)
    requires s == StmtTokens(st) + s1 && CanonStmt(st) && ClosedStmt(st) && StmtNodes(st) <= room && StmtFollows(st, s1)
    requires OpensAt(s1, k, o, rest, room - StmtNodes(st), e)
    ensures OpensAt(s, k, Past(st, o), rest, room, e)
  {
    hide StmtTokens, StmtNodes, CanonStmt, ClosedStmt, StmtFollows, Halts;
    if o.Here? { assert OpenTokens(o) + rest == rest; }
    assert (StmtTokens(st) + OpenTokens(o)) + rest == StmtTokens(st) + (OpenTokens(o) + rest);
  }

  lemma {:induction false} StmtOpens(s: seq<Item>, k: Stop, room: nat, e: Error) returns (o: Open, rest: seq<Item>)
    requires OfStatements(e) && Good(s) && ReadStmt(s, room) == Fail(e) && Head(s).Tok? && !StopsAt(k, Head(s).t)
    ensures OpensAt(s, k, o, rest, room, e)
    decreases |s|, 2
  {
    hide ReadExpr, ReadBranches, ReadLet, ReadSimple, ReadWhile, ReadFun, Good, Unmarked, OpensAt, IfOpensAt, StopsAt;
    GoodTail(s);
    o, rest := Here, s;
    match Head(s)
    case Tok(LET) => NoLetOpens(s, room, e);
    case Tok(FUNCTION) => o, rest := FunOpens(s, k, room, e);
    case Tok(RETURN) => ExprTaken(s[1..], 0, room);
    case Tok(IF) =>
      var p;
      p, rest := BranchesOpen(s[1..], [], room - 1, e);
      o := InIf(p);
      IfOpens(s, k, p, rest, room, e);
    case Tok(WHILE) => o, rest := WhileOpens(s, k, room, e);
    case Tok(IDENTIFIER(_)) => SimpleFine(s, room);
    case _ => HereOpens(s, k, room, e);
  }

  lemma {:induction false} NoLetOpens(s: seq<Item>, room: nat, e: Error)
    requires OfStatements(e) && Good(s) && s != []
    ensures ReadLet(s[1..], room) != Fail(e)
  {
    hide ReadLet, WellClosed, Unmarked;
    GoodTail(s);
    LetFine(s[1..], room);
  }

  lemma {:induction false} HereOpens(s: seq<Item>, k: Stop, room: nat, e: Error)
    requires Halts(k, Head(s), e)
    ensures OpensAt(s, k, Here, s, room, e)
  {
    assert s == [] + s;
  }

  lemma {:induction false} IfOpens(s: seq<Item>, k: Stop, p: OpenIf, rest: seq<Item>, room: nat, e: Error)
    requires Head(s) == Tok(IF) && room > 0 && IfOpensAt(s[1..], p, rest, room - 1, e)
    ensures OpensAt(s, k, InIf(p), rest, room, e)
  {
    hide OpenIfTokens, CanonOpenIf, OpenIfNodes, Halts, StmtFollows;
    assert s == [Tok(IF)] + (OpenIfTokens(p) + rest);
  }

  lemma {:induction false} WhileOpens(s: seq<Item>, k: Stop, room: nat, e: Error) returns (o: Open, rest: seq<Item>)
    requires OfStatements(e) && Good(s) && Head(s) == Tok(WHILE) && ReadWhile(s[1..], room) == Fail(e)
    ensures OpensAt(s, k, o, rest, room, e)
    decreases |s|, 1
  {
    hide ReadExpr, ReadBody, Good, OpensAt, ExprTokens, ExprNodes, Canon, Closed;
    GoodTail(s);
    ExprTaken(s[1..], 0, room);
    var c := ReadExpr(s[1..], 0, room);
    ExpectTaken(c.rest, DO, c.room);
    var b;
    b, rest := BodyOpens(Tail(c.rest), AtEnd, c.room - 1, e);
    o := InWhile(c.value, b);
    WhileSpelled(s, k, c.value, c.rest, b, rest, room, c.room, e);
  }

  lemma {:induction false} WhileSpelled(s: seq<Item>, k: Stop, c: Expr, s1: seq<Item>, b: Open, rest: seq<Item>,
      room: nat,
      room1: nat, e: Error)
    requires Head(s) == Tok(WHILE) && s[1..] == ExprTokens(c) + s1 && s1 == [Tok(DO)] + Tail(s1)
    requires Canon(c, 0) && Closed(c) && room == room1 + ExprNodes(c)
    requires room1 > 1 && OpensAt(Tail(s1), AtEnd, b, rest, room1 - 2, e)
    ensures OpensAt(s, k, InWhile(c, b), rest, room, e)
  {
    hide ExprTokens, ExprNodes, Canon, Closed, Halts, StmtFollows;
    assert s == [Tok(WHILE)] + (ExprTokens(c) + ([Tok(DO)] + (OpenTokens(b) + rest)));
  }

  lemma {:induction false} FunOpens(s: seq<Item>, k: Stop, room: nat, e: Error) returns (o: Open, rest: seq<Item>)
    requires OfStatements(e) && Good(s) && Head(s) == Tok(FUNCTION) && ReadFun(s[1..], room) == Fail(e)
    ensures OpensAt(s, k, o, rest, room, e)
    decreases |s|, 1
  {
    hide ReadFunSignature, Good, OpensAt, OpenTokens, ParamTokens, OptTypeTokens;
    GoodTail(s);
    GoodTail(s[1..]);
    var n := ExpectName(s[1..], room);
    var ps, ret, b;
    ps, ret, b, rest := SignatureOpens(Tail(s[1..]), n.value, room - 1, e);
    o := InFun(n.value, ps, ret, b);
    FunOpened(s, k, Tail(s[1..]), n.value, ps, ret, b, rest, room, e);
  }

  /** The parameters, return type and open body of a function. */
  ghost predicate SignatureAt(s: seq<Item>, ps: seq<Param>, ret: Option<VarType>, b: Open, rest: seq<Item>, room: nat,
      e: Error)
  {
    && s == [Tok(LPAREN)]
      + ((if ps == [] then [Tok(RPAREN)] else ParamTokens(ps)) + (OptTypeTokens(ret) + (OpenTokens(b) + rest)))
    && Ends(InFun("", ps, ret, b), rest) && Halts(Inner(b, AtEnd), Head(rest), e)
    && CanonOpen(b) && |ps| + 1 + OpenNodes(b) <= room
  }

  lemma {:induction false} FunOpened(s: seq<Item>, k: Stop, s1: seq<Item>, n: string, ps: seq<Param>,
      ret: Option<VarType>,
      b: Open, rest: seq<Item>, room: nat, e: Error)
    requires |s| > 1 && s[0] == Tok(FUNCTION) && s[1] == Tok(IDENTIFIER(n)) && s1 == s[2..]
    requires room > 0 && SignatureAt(s1, ps, ret, b, rest, room - 1, e)
    ensures OpensAt(s, k, InFun(n, ps, ret, b), rest, room, e)
  {
    hide ParamTokens, OptTypeTokens, Halts, StmtFollows;
    FunSpelled(n, ps, ret, b, rest);
    assert s == [s[0], s[1]] + s1;
  }

  lemma {:induction false} SignatureOpens(s: seq<Item>, n: string, room: nat, e: Error)
    returns (ps: seq<Param>, ret: Option<VarType>, b: Open, rest: seq<Item>)
    requires OfStatements(e) && Good(s) && ReadFunSignature(s, n, room) == Fail(e)
    ensures SignatureAt(s, ps, ret, b, rest, room, e)
    decreases |s|, 6
  {
    hide ReadParams, TryReadType, ReadBody, Good, OpensAt, SignatureAt, ParamTokens, OptTypeTokens;
    ExpectTaken(s, LPAREN, room);
    var s1 := Tail(s);
    ParamsTaken(s1, room);
    var r := ReadParams(s1, room);
    ps := r.value;
    TypeTaken(r.rest, r.room);
    var q := TryReadType(r.rest, r.room);
    ret := q.value;
    b, rest := BodyOpens(q.rest, AtEnd, r.room, e);
    SignatureSpelled(s, s1, ps, r.rest, ret, q.rest, b, rest, room, e);
  }

  lemma {:induction false} SignatureSpelled(s: seq<Item>, s1: seq<Item>, ps: seq<Param>, s2: seq<Item>,
      ret: Option<VarType>, s3: seq<Item>, b: Open, rest: seq<Item>, room: nat, e: Error)
    requires s == [Tok(LPAREN)] + s1 && s1 == (if ps == [] then [Tok(RPAREN)] else ParamTokens(ps)) + s2
    requires s2 == OptTypeTokens(ret) + s3
    requires |ps| < room && OpensAt(s3, AtEnd, b, rest, room - |ps| - 1, e)
    requires ret.None? ==> Head(s3) != Tok(COLON)
    ensures SignatureAt(s, ps, ret, b, rest, room, e)
  {
    hide ParamTokens, OptTypeTokens, Halts, StmtFollows;
    if b.Here? { assert OpenTokens(b) + rest == rest; }
  }

  lemma {:induction false} ParamsTaken(s: seq<Item>, room: nat)
    requires Good(s)
    ensures match ReadParams(s, room)
            case Fail(e) => !OfStatements(e)
            case Ok(ps, rest, room1) =>
              s == (if ps == [] then [Tok(RPAREN)] else ParamTokens(ps)) + rest && room == room1 + |ps| && Good(rest)
  {
    hide ReadMoreParams, WellClosed, Unmarked, ParamTokens;
    GoodTail(s);
    MoreParamsFine(s, [], room);
    ParamsSound(s, room);
    var r := ReadParams(s, room);
    if r.Ok? { GoodSuffix(if r.value == [] then [Tok(RPAREN)] else ParamTokens(r.value), r.rest); }
  }

  lemma {:induction false} TypeTaken(s: seq<Item>, room: nat)
    requires Good(s)
    ensures match TryReadType(s, room)
            case Fail(e) => !OfStatements(e)
            case Ok(ty, rest, room1) =>
              s == OptTypeTokens(ty) + rest && room1 == room && Good(rest) && (ty.None? ==> Head(rest) != Tok(COLON))
  {
    hide TryReadType, WellClosed, Unmarked, OptTypeTokens;
    TypeFine(s, room);
    OptTypeSound(s, room);
    var r := TryReadType(s, room);
    if r.Ok? {
      GoodSuffix(OptTypeTokens(r.value), r.rest);
      NoneNoColon(s, room);
    }
  }

  lemma {:induction false} NoneNoColon(s: seq<Item>, room: nat)
    ensures var r := TryReadType(s, room); r.Ok? && r.value.None? ==> Head(r.rest) != Tok(COLON)
  {
  }

  lemma {:induction false} BranchesOpen(s: seq<Item>, done: seq<Branch>, room: nat, e: Error)
    returns (p: OpenIf, rest: seq<Item>)
    requires OfStatements(e) && Good(s) && ReadBranches(s, done, room) == Fail(e)
    ensures IfOpensAt(s, p, rest, room, e)
    decreases |s|, 6
  {
    hide ReadBranch, ReadElse, Good, OneBranch, CanonBranch, ExprNodes, BlockNodes, IfOpensAt;
    var r := ReadBranch(s, room);
    if r.Fail? {
      p, rest := BranchOpens(s, room, e);
    } else {
      BranchTaken(s, room);
      GoodTail(r.rest);
      if Head(r.rest) == Tok(ELIF) {
        p, rest := BranchesOpen(r.rest[1..], done + [r.value], r.room, e);
        PastBranchOpens(s, r.value, r.rest, p, rest, room, e);
        p := PastBranch(r.value, p);
      } else {
        var b;
        b, rest := ElseOpens(r.rest, done + [r.value], r.room, e);
        p := InElse(r.value, b);
        InElseOpens(s, r.value, r.rest, b, rest, room, e);
      }
    }
  }

  lemma {:induction false} PastBranchOpens(s: seq<Item>, x: Branch, s1: seq<Item>, p: OpenIf, rest: seq<Item>,
      room: nat, e: Error)
    requires s == OneBranch(x) + s1 && Head(s1) == Tok(ELIF) && CanonBranch(x)
    requires ExprNodes(x.cond) + 1 + BlockNodes(x.body) <= room
    requires IfOpensAt(s1[1..], p, rest, room - ExprNodes(x.cond) - 1 - BlockNodes(x.body), e)
    ensures IfOpensAt(s, PastBranch(x, p), rest, room, e)
  {
    hide OneBranch, CanonBranch, ExprNodes, BlockNodes, Halts, StmtFollows;
    assert s == OneBranch(x) + ([Tok(ELIF)] + (OpenIfTokens(p) + rest));
  }

  lemma {:induction false} InElseOpens(s: seq<Item>, x: Branch, s1: seq<Item>, b: Open, rest: seq<Item>, room: nat,
      e: Error)
    requires s == OneBranch(x) + s1 && Head(s1) == Tok(ELSE) && CanonBranch(x)
    requires ExprNodes(x.cond) + 1 + BlockNodes(x.body) + 1 <= room
    requires OpensAt(s1[1..], AtBranch, b, rest, room - ExprNodes(x.cond) - 2 - BlockNodes(x.body), e)
    ensures IfOpensAt(s, InElse(x, b), rest, room, e)
  {
    hide OneBranch, CanonBranch, ExprNodes, BlockNodes, Halts, StmtFollows;
    assert s == OneBranch(x) + ([Tok(ELSE)] + (OpenTokens(b) + rest));
  }

  lemma {:induction false} BranchOpens(s: seq<Item>, room: nat, e: Error) returns (p: OpenIf, rest: seq<Item>)
    requires OfStatements(e) && Good(s) && ReadBranch(s, room) == Fail(e)
    ensures IfOpensAt(s, p, rest, room, e)
    decreases |s|, 5
  {
    hide ReadExpr, ReadBody, Good, OpensAt, IfOpensAt, ExprTokens, ExprNodes, Canon, Closed;
    ExprTaken(s, 0, room);
    var c := ReadExpr(s, 0, room);
    ExpectTaken(c.rest, THEN, c.room);
    var b;
    b, rest := BodyOpens(Tail(c.rest), AtBranch, c.room, e);
    p := InBranch(c.value, b);
    InBranchOpens(s, c.value, c.rest, b, rest, room, c.room, e);
  }

  lemma {:induction false} InBranchOpens(s: seq<Item>, c: Expr, s1: seq<Item>, b: Open, rest: seq<Item>, room: nat,
      room1: nat, e: Error)
    requires s == ExprTokens(c) + s1 && s1 == [Tok(THEN)] + Tail(s1)
    requires Canon(c, 0) && Closed(c) && room == room1 + ExprNodes(c)
    requires room1 > 0 && OpensAt(Tail(s1), AtBranch, b, rest, room1 - 1, e)
    ensures IfOpensAt(s, InBranch(c, b), rest, room, e)
  {
    hide ExprTokens, ExprNodes, Canon, Closed, Halts, StmtFollows;
    assert s == ExprTokens(c) + ([Tok(THEN)] + (OpenTokens(b) + rest));
  }

  lemma {:induction false} ElseOpens(s: seq<Item>, done: seq<Branch>, room: nat, e: Error)
    returns (b: Open, rest: seq<Item>)
    requires OfStatements(e) && Good(s) && ReadElse(s, done, room) == Fail(e)
    ensures Head(s) == Tok(ELSE) && room > 0 && OpensAt(s[1..], AtBranch, b, rest, room - 1, e)
    decreases |s|, 5
  {
    hide ReadBody, Good, OpensAt, Expect;
    GoodTail(s);
    ExpectTaken(s, END, room);
    var r := ReadBody(s[1..], AtBranch, room);
    if r.Ok? {
      BodyTaken(s[1..], AtBranch, room);
      ExpectTaken(r.rest, END, r.room);
    }
    b, rest := BodyOpens(s[1..], AtBranch, room, e);
  }

  // ----- modules

  lemma {:induction false} MendUnmarked(s: seq<Item>)
    requires Unmarked(s)
    ensures Unmarked(Mend(s))
    decreases |s|
  {
    if s == [] {
    } else if Opened(s) {
      MendUnmarked(Tail(s[3..]));
    } else {
      MendUnmarked(s[1..]);
    }
  }

  /** What the stream starts with is an open program that the arena has room for, and then
      comes a token that gives this error. */
  ghost predicate ComesTo(s: seq<Item>, room: nat, e: Error) {
    exists o, rest :: OpensAt(s, AtEof, o, rest, room, e)
  }

  lemma {:induction false} HaltFails(k: Stop, s: seq<Item>, room: nat, e: Error)
    requires Halts(k, Head(s), e)
    ensures ReadStmt(s, room) == Fail(e)
  {
    hide ReadExpr, ReadBranches, ReadLet, ReadSimple, ReadWhile, ReadFun, StopsAt;
    if IsUnsupported(Head(s)) { UnsupportedFails(s, room); } else { NoneFails(s, room); }
  }

  lemma {:induction false} NoneFails(s: seq<Item>, room: nat)
    requires Head(s).Tok? && !IsUnsupported(Head(s)) && !StartsStmt(Head(s).t)
    ensures ReadStmt(s, room) == Fail(NON_STATEMENT_TOKEN)
  {
    hide ReadExpr, ReadBranches, ReadLet, ReadSimple, ReadWhile, ReadFun;
  }

  lemma {:induction false} ReadingOpens(s: seq<Item>, room: nat, e: Error)
    requires Good(s) && OfStatements(e)
    ensures ReadBlock(s, AtEof, [], room) == Fail(e) <==> ComesTo(s, room, e)
  {
    hide ReadBlock, Good, OpensAt;
    if ReadBlock(s, AtEof, [], room) == Fail(e) {
      var o, rest := BlockOpens(s, AtEof, [], room, e);
    }
    if ComesTo(s, room, e) {
      var o, rest :| OpensAt(s, AtEof, o, rest, room, e);
      OpenedFails(s, o, rest, room, e);
    }
  }

  lemma {:induction false} OpenedFails(s: seq<Item>, o: Open, rest: seq<Item>, room: nat, e: Error)
    requires OpensAt(s, AtEof, o, rest, room, e)
    ensures ReadBlock(s, AtEof, [], room) == Fail(e)
  {
    hide ReadBlock, OpenTokens, OpenNodes, CanonOpen, ReadStmt, Ends, StopsAt;
    HaltFails(Inner(o, AtEof), rest, room - OpenNodes(o), e);
    OpenRuns(o, AtEof, [], rest, room, e);
  }

  /** At `k` an unsupported statement begins: what stands before it is an open program
      that the arena has room for. */
  ghost predicate UnsupportedAt(s: seq<Item>, k: nat, o: Open, room: nat) {
    k < |s| && s[k] in {Tok(EXPORT), Tok(FOR), Tok(BREAK), Tok(CONTINUE)}
    && s[..k] == OpenTokens(o) && CanonOpen(o) && OpenNodes(o) <= room
  }

  ghost predicate ComesToUnsupported(s: seq<Item>, room: nat) {
    exists k: nat, o: Open :: UnsupportedAt(s, k, o, room)
  }

  lemma {:induction false} UnsupportedIs(s: seq<Item>, room: nat)
    ensures ComesTo(s, room, UNDEFINED) <==> ComesToUnsupported(s, room)
  {
    hide OpenTokens, OpenNodes, CanonOpen, StopsAt;
    if ComesTo(s, room, UNDEFINED) {
      var o, rest :| OpensAt(s, AtEof, o, rest, room, UNDEFINED);
      var k := |OpenTokens(o)|;
      assert s[..k] == OpenTokens(o) && Head(rest) == s[k];
      assert UnsupportedAt(s, k, o, room);
    }
    if ComesToUnsupported(s, room) {
      var k: nat, o: Open :| UnsupportedAt(s, k, o, room);
      assert s == OpenTokens(o) + s[k..] && Head(s[k..]) == s[k];
      UnsupportedAfter(o, AtEof, s[k..]);
      assert OpensAt(s, AtEof, o, s[k..], room, UNDEFINED);
    }
  }

  /** What the stream starts with is an open program that the arena has room for; the token
      after it does not go on with that, does not end its innermost body, and begins no
      statement. */
  ghost predicate NoStatementAfter(s: seq<Item>, o: Open, rest: seq<Item>, room: nat) {
    && s == OpenTokens(o) + rest && CanonOpen(o) && OpenNodes(o) <= room
    && Ends(o, rest) && Head(rest).Tok? && !StopsAt(Inner(o, AtEof), Head(rest).t)
    && !Head(rest).t.IDENTIFIER?
    && Head(rest).t !in {LET, FUNCTION, RETURN, IF, WHILE, EXPORT, FOR, BREAK, CONTINUE}
  }

  ghost predicate ComesToNoStatement(s: seq<Item>, room: nat) {
    exists o, rest :: NoStatementAfter(s, o, rest, room)
  }

  lemma {:induction false} NoStatementIs(s: seq<Item>, room: nat)
    ensures ComesTo(s, room, NON_STATEMENT_TOKEN) <==> ComesToNoStatement(s, room)
  {
    hide OpenTokens, OpenNodes, CanonOpen, StopsAt, Ends;
    forall o, rest
      ensures OpensAt(s, AtEof, o, rest, room, NON_STATEMENT_TOKEN) <==> NoStatementAfter(s, o, rest, room)
    {
    }
  }

  lemma {:induction false} BadHead(s: seq<Item>, room: nat)
    requires Head(s).Bad?
    ensures ReadBlock(s, AtEof, [], room) == Fail(Head(s).e)
  {
  }

  /** The parser is undefined on a stream if and only if the stream begins with an import
      or its mended form comes to an unsupported statement. */
  lemma {:induction false} UndefinedIff(s: seq<Item>, room: nat)
    requires Unmarked(s)
    ensures ReadModule(s, room) == Fail(UNDEFINED)
       <==> Head(s) == Tok(IMPORT) || Head(s) == Tok(FROM) || ComesToUnsupported(Mend(s), room)
  {
    hide ReadBlock, Mend, WellClosed, Unmarked, ComesToUnsupported, ComesTo;
    BlockMirrors(s, AtEof, [], [], room, room);
    MendCloses(s);
    MendUnmarked(s);
    ReadingOpens(Mend(s), room, UNDEFINED);
    UnsupportedIs(Mend(s), room);
    UnmarkedTail(s);
    if Head(s).Bad? { BadHead(s, room); }
  }

  /** The parser answers that a token is no statement if and only if the stream begins with
      no import and its mended form comes to such a token. */
  lemma {:induction false} NonStatementIff(s: seq<Item>, room: nat)
    requires Unmarked(s)
    ensures ReadModule(s, room) == Fail(NON_STATEMENT_TOKEN)
       <==> Head(s) != Tok(IMPORT) && Head(s) != Tok(FROM) && ComesToNoStatement(Mend(s), room)
  {
    hide ReadBlock, Mend, WellClosed, Unmarked, ComesToNoStatement, ComesTo;
    BlockMirrors(s, AtEof, [], [], room, room);
    MendCloses(s);
    MendUnmarked(s);
    ReadingOpens(Mend(s), room, NON_STATEMENT_TOKEN);
    NoStatementIs(Mend(s), room);
    UnmarkedTail(s);
    if Head(s).Bad? { BadHead(s, room); }
  }

  /** Where no `)` is missing, its mended form is the stream. */
  lemma {:induction false} ClosedUndefinedIff(s: seq<Item>, room: nat)
    requires Unmarked(s) && WellClosed(s)
    ensures ReadModule(s, room) == Fail(UNDEFINED)
       <==> Head(s) == Tok(IMPORT) || Head(s) == Tok(FROM) || ComesToUnsupported(s, room)
  {
    hide ReadModule, Mend, WellClosed, Unmarked, ComesToUnsupported;
    MendCloses(s);
    UndefinedIff(s, room);
  }

  lemma {:induction false} ImportUndefined(t: Token, room: nat)
    requires t == IMPORT || t == FROM
    ensures ReadModule([Tok(t)], room) == Fail(UNDEFINED)
  {
  }

  lemma {:induction false} BreakUndefined(t: Token, room: nat)
    requires IsUnsupported(Tok(t))
    ensures ReadModule([Tok(t)], room) == Fail(UNDEFINED)
  {
    hide ReadBlock;
    UnsupportedFails([Tok(t)], room);
    UnsupportedFresh(Tok(t));
    FailureComesOut([Tok(t)], AtEof, [], room);
  }

  // ----- texts

  lemma {:induction false} SourceUnmarked(src: string, i: nat)
    requires i <= |src|
    ensures Unmarked(Scanning.Items(src, i))
    decreases |src| - i
  {
    hide Scanning.ScanToken;
    var x := Scanning.ScanToken(src, i);
    if !x.End? {
      var items, rest := Scanning.Items(src, i), Scanning.Items(src, x.next);
      SourceUnmarked(src, x.next);
      forall k | 0 <= k < |items| && items[k].Bad? ensures !OfStatements(items[k].e) {
        if k > 0 { assert items[k] == rest[k - 1]; }
      }
    }
  }

  /** The same of every source text. */
  lemma {:induction false} SourceUndefinedIff(src: string, room: nat)
    ensures var s := Scanning.Items(src, 0);
            (ReadModule(s, room) == Fail(UNDEFINED)
             <==> Head(s) == Tok(IMPORT) || Head(s) == Tok(FROM) || ComesToUnsupported(Mend(s), room))
  {
    hide Scanning.Items, ReadModule, Mend, Unmarked, ComesToUnsupported;
    SourceUnmarked(src, 0);
    UndefinedIff(Scanning.Items(src, 0), room);
  }

  /** A mended stream has no tokens besides `)` that the stream has not. */
  lemma {:induction false} MendAdds(s: seq<Item>, k: nat)
    requires k < |Mend(s)| && Mend(s)[k] != Tok(RPAREN)
    ensures Mend(s)[k] in s
    decreases |s|
  {
    if Opened(s) {
      var rest := Tail(s[3..]);
      if k >= 4 {
        assert Mend(s)[k] == Mend(rest)[k - 4];
        MendAdds(rest, k - 4);
      }
    } else if k > 0 {
      assert Mend(s)[k] == Mend(s[1..])[k - 1];
      MendAdds(s[1..], k - 1);
    }
  }

  /** No statement keyword without a parser, and no marker of undefined behaviour. */
  predicate Tame(s: seq<Item>) {
    Unmarked(s) && forall i :: 0 <= i < |s| ==> !IsUnsupported(s[i])
  }

  /** So the parser is defined on every stream without these keywords whose head is no
      import: it ends, with a program or with an error of its own. */
  lemma {:induction false} ModuleDefined(s: seq<Item>, room: nat)
    requires Tame(s) && Head(s) != Tok(IMPORT) && Head(s) != Tok(FROM)
    ensures ReadModule(s, room) != Fail(UNDEFINED)
  {
    hide ReadModule, Mend, OpenTokens, OpenNodes, CanonOpen;
    UndefinedIff(s, room);
    if ComesToUnsupported(Mend(s), room) {
      var k: nat, o: Open :| UnsupportedAt(Mend(s), k, o, room);
      MendAdds(s, k);
    }
  }

  /** And on every such source text. */
  lemma {:induction false} SourceDefined(src: string, room: nat)
    requires forall k :: 0 <= k < |Scanning.Items(src, 0)| ==> !IsUnsupported(Scanning.Items(src, 0)[k])
    requires Head(Scanning.Items(src, 0)) != Tok(IMPORT) && Head(Scanning.Items(src, 0)) != Tok(FROM)
    ensures ReadModule(Scanning.Items(src, 0), room) != Fail(UNDEFINED)
  {
    hide Scanning.Items, ReadModule, Unmarked;
    SourceUnmarked(src, 0);
    ModuleDefined(Scanning.Items(src, 0), room);
  }

  /** And which source texts get that answer. */
  lemma {:induction false} SourceNonStatementIff(src: string, room: nat)
    ensures var s := Scanning.Items(src, 0);
            (ReadModule(s, room) == Fail(NON_STATEMENT_TOKEN)
             <==> Head(s) != Tok(IMPORT) && Head(s) != Tok(FROM) && ComesToNoStatement(Mend(s), room))
  {
    hide Scanning.Items, ReadModule, Mend, Unmarked, ComesToNoStatement;
    SourceUnmarked(src, 0);
    NonStatementIff(Scanning.Items(src, 0), room);
  }
}

/** Programs that are read up to some point: finished statements and, around that point,
    loops, branches and functions that are still open. */
module Opening {
  import opened Options
  import opened Tokens
  import opened Syntax
  import opened Reading
  import opened Canonical

  datatype Open =
    | Here
    | Past(st: Stmt, more: Open)
    | InWhile(cond: Expr, body: Open)
    | InFun(name: string, params: seq<Param>, ret: Option<VarType>, body: Open)
    | InIf(part: OpenIf)

  datatype OpenIf =
    | InBranch(cond: Expr, body: Open)
    | PastBranch(branch: Branch, more: OpenIf)
    | InElse(branch: Branch, body: Open)

  // ----- what an open program has spelled so far

  function OpenTokens(o: Open): seq<Item> {
    match o
    case Here => []
    case Past(st, m) => StmtTokens(st) + OpenTokens(m)
    case InWhile(c, b) => [Tok(WHILE)] + (ExprTokens(c) + ([Tok(DO)] + OpenTokens(b)))
    case InFun(n, ps, ret, b) => FunHead(n, ps) + (OptTypeTokens(ret) + OpenTokens(b))
    case InIf(p) => [Tok(IF)] + OpenIfTokens(p)
  }

  /** A function up to the parenthesis that closes its parameters. */
  function FunHead(n: string, ps: seq<Param>): seq<Item> {
    [Tok(FUNCTION), Tok(IDENTIFIER(n)), Tok(LPAREN)] + (if ps == [] then [Tok(RPAREN)] else ParamTokens(ps))
  }

  function OpenIfTokens(p: OpenIf): seq<Item> {
    match p
    case InBranch(c, b) => ExprTokens(c) + ([Tok(THEN)] + OpenTokens(b))
    case PastBranch(x, m) => OneBranch(x) + ([Tok(ELIF)] + OpenIfTokens(m))
    case InElse(x, b) => OneBranch(x) + ([Tok(ELSE)] + OpenTokens(b))
  }

  function OneBranch(x: Branch): seq<Item> {
    ExprTokens(x.cond) + ([Tok(THEN)] + BlockTokens(x.body))
  }

  /** The nodes it has taken. */
  function OpenNodes(o: Open): nat {
    match o
    case Here => 0
    case Past(st, m) => StmtNodes(st) + OpenNodes(m)
    case InWhile(c, b) => ExprNodes(c) + 2 + OpenNodes(b)
    case InFun(_, ps, _, b) => 1 + |ps| + 1 + OpenNodes(b)
    case InIf(p) => 1 + OpenIfNodes(p)
  }

  function OpenIfNodes(p: OpenIf): nat {
    match p
    case InBranch(c, b) => ExprNodes(c) + 1 + OpenNodes(b)
    case PastBranch(x, m) => ExprNodes(x.cond) + 1 + BlockNodes(x.body) + OpenIfNodes(m)
    case InElse(x, b) => ExprNodes(x.cond) + 1 + BlockNodes(x.body) + 1 + OpenNodes(b)
  }

  /** All its finished parts are canonical, with every parenthesis. */
  ghost predicate CanonOpen(o: Open) {
    match o
    case Here => true
    case Past(st, m) => CanonStmt(st) && ClosedStmt(st) && CanonOpen(m)
    case InWhile(c, b) => Canon(c, 0) && Closed(c) && CanonOpen(b)
    case InFun(_, _, _, b) => CanonOpen(b)
    case InIf(p) => CanonOpenIf(p)
  }

  ghost predicate CanonOpenIf(p: OpenIf) {
    match p
    case InBranch(c, b) => Canon(c, 0) && Closed(c) && CanonOpen(b)
    case PastBranch(x, m) => CanonBranch(x) && CanonOpenIf(m)
    case InElse(x, b) => CanonBranch(x) && CanonOpen(b)
  }

  ghost predicate CanonBranch(x: Branch) {
    Canon(x.cond, 0) && Closed(x.cond) && CanonBlock(x.body) && ClosedBlock(x.body)
  }

  // ----- where it goes wrong

  /** The statements that the parser does not implement. */
  predicate IsUnsupported(i: Item) {
    i in {Tok(EXPORT), Tok(FOR), Tok(BREAK), Tok(CONTINUE)}
  }

  /** A token that goes on with no expression, place or function head. */
  predicate Fresh(i: Item) {
    && i.Tok?
    && i.t !in {DOT, LPAREN, COLON, ADD, MUL, DIV, EQUAL, NEQUAL, LEQUAL, GEQUAL, LESS, GREATER, AND, OR}
  }

  /** Where the innermost body that is open stops, in one that stops at `k`. */
  function Inner(o: Open, k: Stop): Stop {
    match o
    case Here => k
    case Past(_, m) => Inner(m, k)
    case InWhile(_, b) => Inner(b, AtEnd)
    case InFun(_, _, _, b) => Inner(b, AtEnd)
    case InIf(p) => InnerIf(p)
  }

  function InnerIf(p: OpenIf): Stop {
    match p
    case InBranch(_, b) => Inner(b, AtBranch)
    case PastBranch(_, m) => InnerIf(m)
    case InElse(_, b) => Inner(b, AtBranch)
  }

  /** What comes next does not go on with what stands last in the open program. */
  ghost predicate Ends(o: Open, rest: seq<Item>) {
    match o
    case Here => true
    case Past(st, m) => if m.Here? then StmtFollows(st, rest) else Ends(m, rest)
    case InWhile(_, b) => Ends(b, rest)
    case InFun(_, _, ret, b) => if b.Here? then ret.None? ==> Head(rest) != Tok(COLON) else Ends(b, rest)
    case InIf(p) => IfEnds(p, rest)
  }

  ghost predicate IfEnds(p: OpenIf, rest: seq<Item>) {
    match p
    case InBranch(_, b) => Ends(b, rest)
    case PastBranch(_, m) => IfEnds(m, rest)
    case InElse(_, b) => Ends(b, rest)
  }

  /** What comes after the open program is no part of it, and does not end its innermost
      body. */
  ghost predicate ComesAfter(o: Open, k: Stop, rest: seq<Item>) {
    Ends(o, rest) && Head(rest).Tok? && !StopsAt(Inner(o, k), Head(rest).t)
  }

  ghost predicate ComesAfterIf(p: OpenIf, rest: seq<Item>) {
    IfEnds(p, rest) && Head(rest).Tok? && !StopsAt(InnerIf(p), Head(rest).t)
  }

  lemma {:induction false} FreshEnds(o: Open, rest: seq<Item>)
    requires Fresh(Head(rest))
    ensures Ends(o, rest)
    decreases o
  {
    hide Fresh, StmtFollows;
    match o
    case Here =>
    case Past(st, m) =>
      FreshFollows(st, rest);
      FreshEnds(m, rest);
    case InWhile(_, b) => FreshEnds(b, rest);
    case InFun(_, _, _, b) =>
      FreshNoColon(Head(rest));
      FreshEnds(b, rest);
    case InIf(p) => FreshIfEnds(p, rest);
  }

  lemma {:induction false} FreshIfEnds(p: OpenIf, rest: seq<Item>)
    requires Fresh(Head(rest))
    ensures IfEnds(p, rest)
    decreases p
  {
    hide Fresh, StmtFollows;
    match p
    case InBranch(_, b) => FreshEnds(b, rest);
    case PastBranch(_, m) => FreshIfEnds(m, rest);
    case InElse(_, b) => FreshEnds(b, rest);
  }

  lemma {:induction false} UnsupportedFresh(i: Item)
    requires IsUnsupported(i)
    ensures Fresh(i) && forall k: Stop :: !StopsAt(k, i.t)
  {
  }

  lemma {:induction false} UnsupportedAfter(o: Open, k: Stop, rest: seq<Item>)
    requires IsUnsupported(Head(rest))
    ensures ComesAfter(o, k, rest)
  {
    UnsupportedFresh(Head(rest));
    FreshEnds(o, rest);
  }

  lemma {:induction false} StarterFresh(t: Token)
    requires StartsStmt(t)
    ensures Fresh(Tok(t)) && forall k: Stop :: !StopsAt(k, t)
  {
  }

  lemma {:induction false} OpenGoesOn(o: Open, k: Stop, rest: seq<Item>)
    requires CanonOpen(o) && ComesAfter(o, k, rest)
    ensures var i := Head(OpenTokens(o) + rest); i.Tok? && !StopsAt(k, i.t) && (o.Here? || Fresh(i))
  {
    hide StmtTokens, ExprTokens, CanonStmt, ParamTokens, Fresh, StopsAt, Ends;
    match o
    case Here => assert OpenTokens(o) + rest == rest;
    case Past(st, m) =>
      StmtTokensStart(st);
      StarterFresh(StmtTokens(st)[0].t);
    case InWhile(_, _) => StarterFresh(WHILE);
    case InFun(_, _, _, _) => StarterFresh(FUNCTION);
    case InIf(_) => StarterFresh(IF);
  }

  lemma {:induction false} FreshFollows(st: Stmt, rest: seq<Item>)
    requires Fresh(Head(rest))
    ensures StmtFollows(st, rest)
  {
    match st
    case Let(_, _, e) => GlueBefore(e, rest);
    case Assign(_, e) => GlueBefore(e, rest);
    case Return(e) => GlueBefore(e, rest);
    case _ =>
  }

  lemma {:induction false} FreshNoColon(i: Item)
    requires Fresh(i)
    ensures i.Tok? && i.t != COLON
  {
  }

  // ----- how a failure inside comes out

  lemma {:induction false} FailureComesOut(s: seq<Item>, k: Stop, done: seq<Stmt>, room: nat)
    requires Head(s).Tok? && !StopsAt(k, Head(s).t) && ReadStmt(s, room).Fail?
    ensures ReadBlock(s, k, done, room) == Fail(ReadStmt(s, room).error)
  {
    hide ReadStmt;
  }

  lemma {:induction false} WhileFails(c: Expr, s: seq<Item>, s2: seq<Item>, room: nat, room1: nat, e: Error)
    requires ReadExpr(s, 0, room) == Ok(c, [Tok(DO)] + s2, room1) && room1 > 1
    requires ReadBlock(s2, AtEnd, [], room1 - 2) == Fail(e)
    ensures ReadStmt([Tok(WHILE)] + s, room) == Fail(e)
  {
    hide ReadExpr, ReadBlock;
    Peel(Tok(WHILE), s);
    Peel(Tok(DO), s2);
    assert ReadBody(s2, AtEnd, room1 - 1) == Fail(e);
    assert ReadWhileRest([Tok(DO)] + s2, c, room1 - 1) == Fail(e);
    assert ReadWhile(s, room) == Fail(e);
  }

  lemma {:induction false} FunFails(n: string, ps: seq<Param>, ret: Option<VarType>, s1: seq<Item>, s2: seq<Item>,
      s3: seq<Item>, room: nat, room2: nat, e: Error)
    requires room > 0 && ReadParams(s1, room - 1) == Ok(ps, s2, room2) && room2 > 0
    requires TryReadType(s2, room2) == Ok(ret, s3, room2)
    requires ReadBlock(s3, AtEnd, [], room2 - 1) == Fail(e)
    ensures ReadStmt([Tok(FUNCTION), Tok(IDENTIFIER(n)), Tok(LPAREN)] + s1, room) == Fail(e)
  {
    hide ReadStmt, ReadFun, ReadBlock, ReadParams, TryReadType, ReadFunRest, ReadFunSignature;
    FunRestFails(n, ps, ret, s2, s3, room2, e);
    SignatureSteps(n, ps, s1, s2, room - 1, room2);
    FunNameSteps(n, [Tok(LPAREN)] + s1, room);
    FunStmt(n, s1, room);
  }

  lemma {:induction false} FunStmt(n: string, s: seq<Item>, room: nat)
    ensures ReadStmt([Tok(FUNCTION), Tok(IDENTIFIER(n)), Tok(LPAREN)] + s, room)
         == ReadFun([Tok(IDENTIFIER(n))] + ([Tok(LPAREN)] + s), room)
  {
    hide ReadFun;
    assert ([Tok(FUNCTION), Tok(IDENTIFIER(n)), Tok(LPAREN)] + s)[1..] == [Tok(IDENTIFIER(n))] + ([Tok(LPAREN)] + s);
  }

  lemma {:induction false} FunRestFails(n: string, ps: seq<Param>, ret: Option<VarType>, s2: seq<Item>, s3: seq<Item>,
      room2: nat, e: Error)
    requires TryReadType(s2, room2) == Ok(ret, s3, room2) && room2 > 0
    requires ReadBlock(s3, AtEnd, [], room2 - 1) == Fail(e)
    ensures ReadFunRest(s2, n, ps, room2) == Fail(e)
  {
    hide ReadBlock, TryReadType;
  }

  lemma {:induction false} BranchFails(c: Expr, done: seq<Branch>, s: seq<Item>, s2: seq<Item>, room: nat, room1: nat,
      e: Error)
    requires ReadExpr(s, 0, room) == Ok(c, [Tok(THEN)] + s2, room1) && room1 > 0
    requires ReadBlock(s2, AtBranch, [], room1 - 1) == Fail(e)
    ensures ReadBranches(s, done, room) == Fail(e)
  {
    hide ReadExpr, ReadBlock;
    Peel(Tok(THEN), s2);
    assert ReadBody(s2, AtBranch, room1) == Fail(e);
    assert ReadBranch(s, room) == Fail(e);
  }

  lemma {:induction false} ElseFails(done: seq<Branch>, s: seq<Item>, room: nat, e: Error)
    requires room > 0 && ReadBlock(s, AtBranch, [], room - 1) == Fail(e)
    ensures ReadElse([Tok(ELSE)] + s, done, room) == Fail(e)
  {
    hide ReadBlock;
    Peel(Tok(ELSE), s);
    assert ReadBody(s, AtBranch, room) == Fail(e);
  }

  // ----- an open program runs into the statement after it

  /** A finished branch is read, and then what follows it. */
  lemma {:induction false} OneBranchReads(x: Branch, t: Token, done: seq<Branch>, rest: seq<Item>, room: nat)
    requires CanonBranch(x) && ExprNodes(x.cond) + 1 + BlockNodes(x.body) <= room && (t == ELIF || t == ELSE)
    ensures var room3 := room - ExprNodes(x.cond) - 1 - BlockNodes(x.body);
            ReadBranches(OneBranch(x) + ([Tok(t)] + rest), done, room) ==
            (if t == ELIF then ReadBranches(rest, done + [x], room3)
             else ReadElse([Tok(t)] + rest, done + [x], room3))
  {
    hide Follows, ReadBranches, ReadExpr, ReadBlock, ReadBody, ReadElse, ExprTokens, BlockTokens, ExprNodes, BlockNodes,
      Canon, Closed, CanonBlock, ClosedBlock;
    var stop := [Tok(t)] + rest;
    var s2 := BlockTokens(x.body) + stop;
    assert OneBranch(x) + stop == ExprTokens(x.cond) + ([Tok(THEN)] + s2);
    KeywordFollows(x.cond, THEN, s2);
    ExprReads(x.cond, 0, [Tok(THEN)] + s2, room);
    var room1 := room - ExprNodes(x.cond);
    BodyReads(AtBranch, x.body, stop, room1);
    BranchSteps(x.cond, x.body, done, ExprTokens(x.cond) + ([Tok(THEN)] + s2), s2, stop, room, room1,
      room1 - 1 - BlockNodes(x.body));
    Peel(Tok(t), rest);
  }

  lemma {:induction false} NextFollows(st: Stmt, m: Open, k: Stop, rest: seq<Item>)
    requires CanonOpen(m) && ComesAfter(Past(st, m), k, rest)
    ensures StmtFollows(st, OpenTokens(m) + rest) && ComesAfter(m, k, rest)
  {
    hide StmtTokens, CanonStmt, ClosedStmt, Fresh, StmtFollows, StopsAt;
    if m.Here? {
      assert OpenTokens(m) + rest == rest;
    } else {
      OpenGoesOn(m, k, rest);
      FreshFollows(st, OpenTokens(m) + rest);
    }
  }

  lemma {:induction false} PastReads(st: Stmt, m: Open, k: Stop, rest: seq<Item>, room: nat)
    requires CanonOpen(Past(st, m)) && StmtNodes(st) <= room && ComesAfter(Past(st, m), k, rest)
    ensures ReadStmt(OpenTokens(Past(st, m)) + rest, room) == Ok(st, OpenTokens(m) + rest, room - StmtNodes(st))
  {
    hide ReadStmt, StmtTokens, StmtNodes, StmtFollows, CanonStmt, ClosedStmt, Fresh, ComesAfter;
    var s1 := OpenTokens(m) + rest;
    assert OpenTokens(Past(st, m)) + rest == StmtTokens(st) + s1;
    assert StmtFollows(st, s1) by { NextFollows(st, m, k, rest); }
    StmtReads(st, s1, room);
  }

  /** An open program is read up to its end, and what is wrong with the statement that
      begins there is what is wrong with the whole. */
  lemma {:induction false} OpenRuns(o: Open, k: Stop, done: seq<Stmt>, rest: seq<Item>, room: nat, e: Error)
    requires CanonOpen(o) && OpenNodes(o) <= room && ComesAfter(o, k, rest)
    requires ReadStmt(rest, room - OpenNodes(o)) == Fail(e)
    ensures ReadBlock(OpenTokens(o) + rest, k, done, room) == Fail(e)
    decreases o, 0
  {
    hide ReadBlock, ReadStmt, StmtTokens, StmtNodes, StmtFollows, CanonStmt, ClosedStmt, ExprTokens, ExprNodes, Canon,
      Closed, ParamTokens, OptTypeTokens, Fresh, StopsAt, OpenIfTokens, CanonOpenIf, OpenIfNodes;
    var s := OpenTokens(o) + rest;
    OpenGoesOn(o, k, rest);
    match o
    case Here =>
      assert s == rest by { assert OpenTokens(Here) == []; }
      FailureComesOut(rest, k, done, room);
    case Past(st, m) =>
      PastReads(st, m, k, rest, room);
      NextFollows(st, m, k, rest);
      BlockGoesOn(s, k, done, room);
      OpenRuns(m, k, done + [st], rest, room - StmtNodes(st), e);
    case InWhile(c, b) =>
      WhileRuns(c, b, rest, room, e);
      FailureComesOut(s, k, done, room);
    case InFun(n, ps, ret, b) =>
      FunRuns(n, ps, ret, b, rest, room, e);
      FailureComesOut(s, k, done, room);
    case InIf(p) =>
      IfRuns(p, [], rest, room - 1, e);
      IfFails(p, rest, room, e);
      FailureComesOut(s, k, done, room);
  }

  lemma {:induction false} UnsupportedFails(s: seq<Item>, room: nat)
    requires IsUnsupported(Head(s))
    ensures ReadStmt(s, room) == Fail(UNDEFINED)
  {
  }

  lemma {:induction false} IfFails(p: OpenIf, rest: seq<Item>, room: nat, e: Error)
    requires room > 0 && ReadBranches(OpenIfTokens(p) + rest, [], room - 1) == Fail(e)
    ensures ReadStmt(OpenTokens(InIf(p)) + rest, room) == Fail(e)
  {
    hide ReadBranches, OpenIfTokens;
    assert OpenTokens(InIf(p)) + rest == [Tok(IF)] + (OpenIfTokens(p) + rest);
    Peel(Tok(IF), OpenIfTokens(p) + rest);
  }

  lemma {:induction false} WhileRuns(c: Expr, b: Open, rest: seq<Item>, room: nat, e: Error)
    requires CanonOpen(InWhile(c, b)) && OpenNodes(InWhile(c, b)) <= room && ComesAfter(b, AtEnd, rest)
    requires ReadStmt(rest, room - OpenNodes(InWhile(c, b))) == Fail(e)
    ensures ReadStmt(OpenTokens(InWhile(c, b)) + rest, room) == Fail(e)
    decreases b, 1
  {
    hide ReadBlock, ReadStmt, ReadExpr, ExprTokens, ExprNodes, Canon, Closed, Follows, Fresh, StopsAt, ComesAfter;
    var s2 := OpenTokens(b) + rest;
    var s := ExprTokens(c) + ([Tok(DO)] + s2);
    assert OpenTokens(InWhile(c, b)) + rest == [Tok(WHILE)] + s;
    KeywordFollows(c, DO, s2);
    ExprReads(c, 0, [Tok(DO)] + s2, room);
    OpenRuns(b, AtEnd, [], rest, room - ExprNodes(c) - 2, e);
    WhileFails(c, s, s2, room, room - ExprNodes(c), e);
  }

  lemma {:induction false} FunRegroup(head: seq<Item>, pars: seq<Item>, ty: seq<Item>, body: seq<Item>, rest: seq<Item>)
    ensures ((head + pars) + (ty + body)) + rest == head + (pars + (ty + (body + rest)))
  {
  }

  lemma {:induction false} FunSpelled(n: string, ps: seq<Param>, ret: Option<VarType>, b: Open, rest: seq<Item>)
    ensures var pars := if ps == [] then [Tok(RPAREN)] else ParamTokens(ps);
            OpenTokens(InFun(n, ps, ret, b)) + rest ==
            [Tok(FUNCTION), Tok(IDENTIFIER(n)), Tok(LPAREN)] + (pars + (OptTypeTokens(ret) + (OpenTokens(b) + rest)))
  {
    hide ParamTokens, OptTypeTokens;
    var pars := if ps == [] then [Tok(RPAREN)] else ParamTokens(ps);
    FunRegroup([Tok(FUNCTION), Tok(IDENTIFIER(n)), Tok(LPAREN)], pars, OptTypeTokens(ret), OpenTokens(b), rest);
  }

  lemma {:induction false} NoColonNext(n: string, ps: seq<Param>, ret: Option<VarType>, b: Open, rest: seq<Item>)
    requires CanonOpen(b) && ComesAfter(InFun(n, ps, ret, b), AtEof, rest)
    ensures ComesAfter(b, AtEnd, rest) && Head(OpenTokens(b) + rest).Tok?
    ensures ret.None? ==> Head(OpenTokens(b) + rest) != Tok(COLON)
  {
    hide StmtTokens, CanonStmt, ClosedStmt, Fresh, StmtFollows, StopsAt;
    OpenGoesOn(b, AtEnd, rest);
    if b.Here? {
      assert OpenTokens(b) + rest == rest;
    } else {
      FreshNoColon(Head(OpenTokens(b) + rest));
    }
  }

  lemma {:induction false} FunRuns(n: string, ps: seq<Param>, ret: Option<VarType>, b: Open, rest: seq<Item>,
      room: nat, e: Error)
    requires CanonOpen(b) && OpenNodes(InFun(n, ps, ret, b)) <= room && ComesAfter(InFun(n, ps, ret, b), AtEof, rest)
    requires ReadStmt(rest, room - OpenNodes(InFun(n, ps, ret, b))) == Fail(e)
    ensures ReadStmt(OpenTokens(InFun(n, ps, ret, b)) + rest, room) == Fail(e)
    decreases b, 1
  {
    hide ReadBlock, ReadStmt, ReadParams, TryReadType, ParamTokens, OptTypeTokens, CanonOpen, Fresh, ComesAfter,
      StopsAt, OpenTokens;
    var s3 := OpenTokens(b) + rest;
    var s2 := OptTypeTokens(ret) + s3;
    var pars := if ps == [] then [Tok(RPAREN)] else ParamTokens(ps);
    FunSpelled(n, ps, ret, b, rest);
    NoColonNext(n, ps, ret, b, rest);
    ParamsRead(ps, s2, room - 1);
    OptTypeReads(ret, s3, room - 1 - |ps|);
    OpenRuns(b, AtEnd, [], rest, room - 2 - |ps|, e);
    FunFails(n, ps, ret, pars + s2, s2, s3, room, room - 1 - |ps|, e);
  }

  lemma {:induction false} InBranchSpelled(c: Expr, b: Open, rest: seq<Item>)
    ensures OpenIfTokens(InBranch(c, b)) + rest == ExprTokens(c) + ([Tok(THEN)] + (OpenTokens(b) + rest))
  {
    hide ExprTokens, OpenTokens;
  }

  lemma {:induction false} PastBranchSpelled(x: Branch, m: OpenIf, rest: seq<Item>)
    ensures OpenIfTokens(PastBranch(x, m)) + rest == OneBranch(x) + ([Tok(ELIF)] + (OpenIfTokens(m) + rest))
  {
    hide OneBranch;
  }

  lemma {:induction false} InElseSpelled(x: Branch, b: Open, rest: seq<Item>)
    ensures OpenIfTokens(InElse(x, b)) + rest == OneBranch(x) + ([Tok(ELSE)] + (OpenTokens(b) + rest))
  {
    hide OneBranch, OpenTokens;
  }

  lemma {:induction false} IfRuns(p: OpenIf, done: seq<Branch>, rest: seq<Item>, room: nat, e: Error)
    requires CanonOpenIf(p) && OpenIfNodes(p) <= room && ComesAfterIf(p, rest)
    requires ReadStmt(rest, room - OpenIfNodes(p)) == Fail(e)
    ensures ReadBranches(OpenIfTokens(p) + rest, done, room) == Fail(e)
    decreases p
  {
    hide ReadBlock, ReadBranches, ReadElse, ReadExpr, ExprTokens, ExprNodes, Canon, Closed, Follows, OneBranch,
      CanonBranch, BlockNodes, OpenTokens, OpenIfTokens, OpenNodes, CanonOpen, ReadStmt, Fresh, StopsAt;
    match p
    case InBranch(c, b) =>
      var s2 := OpenTokens(b) + rest;
      InBranchSpelled(c, b, rest);
      KeywordFollows(c, THEN, s2);
      ExprReads(c, 0, [Tok(THEN)] + s2, room);
      OpenRuns(b, AtBranch, [], rest, room - ExprNodes(c) - 1, e);
      BranchFails(c, done, ExprTokens(c) + ([Tok(THEN)] + s2), s2, room, room - ExprNodes(c), e);
    case PastBranch(x, m) =>
      PastBranchSpelled(x, m, rest);
      OneBranchReads(x, ELIF, done, OpenIfTokens(m) + rest, room);
      IfRuns(m, done + [x], rest, room - ExprNodes(x.cond) - 1 - BlockNodes(x.body), e);
    case InElse(x, b) =>
      var s2 := OpenTokens(b) + rest;
      InElseSpelled(x, b, rest);
      OneBranchReads(x, ELSE, done, s2, room);
      var room3 := room - ExprNodes(x.cond) - 1 - BlockNodes(x.body);
      OpenRuns(b, AtBranch, [], rest, room3 - 1, e);
      ElseFails(done + [x], s2, room3, e);
  }
}

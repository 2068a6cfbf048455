/** What the parser of nucleus/lang/parser.h reads off a stream of lexer items:
    pure functions with its branches, its order of checks and its error codes.
    `room` is the number of arena nodes still free. */
module Reading {
  import opened Options
  import opened Tokens
  import opened Operators
  import opened Syntax

  datatype Outcome<+T> = Ok(value: T, rest: seq<Item>, room: nat) | Fail(error: Error) {
    predicate IsFailure() { Fail? }
    function PropagateFailure<U>(): Outcome<U>
      requires Fail?
    { Fail(error) }
    function Extract(): (T, seq<Item>, nat)
      requires Ok?
    { (value, rest, room) }
  }

  function Expect(s: seq<Item>, t: Token, room: nat): Outcome<()> {
    match Head(s)
    case Bad(e) => Fail(e)
    case Tok(x) => if x == t then Ok((), Tail(s), room) else Fail(UNEXPECTED_TOKEN)
  }

  function ExpectName(s: seq<Item>, room: nat): Outcome<string> {
    match Head(s)
    case Bad(e) => Fail(e)
    case Tok(IDENTIFIER(n)) => Ok(n, Tail(s), room)
    case Tok(_) => Fail(UNEXPECTED_TOKEN)
  }

  function ReadType(s: seq<Item>, room: nat): (r: Outcome<VarType>)
    ensures r.Ok? ==> |r.rest| + 2 == |s|
  {
    var (_, s1, _) :- Expect(s, COLON, room);
    match Head(s1)
    case Bad(e) => Fail(e)
    case Tok(PRIMITIVE(p)) => Ok(Prim(p), Tail(s1), room)
    case Tok(IDENTIFIER(n)) => Ok(Arch(n), Tail(s1), room)
    case Tok(_) => Fail(INVALID_VARTYPE)
  }

  function TryReadType(s: seq<Item>, room: nat): (r: Outcome<Option<VarType>>)
    ensures r.Ok? ==> |r.rest| <= |s|
  {
    match Head(s)
    case Bad(e) => Fail(e)
    case Tok(COLON) =>
      var (ty, s1, _) :- ReadType(s, room);
      Ok(Some(ty), s1, room)
    case Tok(_) => Ok(None, s, room)
  }

  /** What a place becomes with `.n` after it; `s` is what follows. */
  function LinkTo(p: Place, n: string, s: seq<Item>, room: nat): Outcome<Place> {
    match p
    case Builtin(_) => Fail(UNKNOWN_SYMBOL_TYPE)
    case Ctor(prim) =>
      (match FindBuiltin(prim, n)
       case None => Fail(UNKNOWN_SYMBOL_TYPE)
       case Some(f) => Ok(Builtin(f), s, room))
    case _ =>
      if room == 0 then Fail(OUT_OF_NODE) else Ok(Member(p, n), s, room - 1)
  }

  /** One `.name` link after a symbol or a primitive. */
  function ReadLink(s: seq<Item>, p: Place, room: nat): (r: Outcome<Place>)
    requires Head(s) == Tok(DOT)
    ensures r.Ok? ==> |r.rest| < |s|
  {
    var (n, s1, _) :- ExpectName(Tail(s), room);
    LinkTo(p, n, s1, room)
  }

  /** All of them. */
  function ReadChain(s: seq<Item>, p: Place, room: nat): (r: Outcome<Place>)
    ensures r.Ok? ==> |r.rest| <= |s|
    decreases |s|
  {
    match Head(s)
    case Bad(e) => Fail(e)
    case Tok(t) =>
      if t == DOT then
        var (q, s1, room1) :- ReadLink(s, p, room);
        ReadChain(s1, q, room1)
      else Ok(p, s, room)
  }

  /** A symbol and its chain, from its identifier on. */
  function ReadPlace(s: seq<Item>, room: nat): (r: Outcome<Place>)
    ensures r.Ok? ==> |r.rest| < |s|
  {
    var (n, s1, _) :- ExpectName(s, room);
    if room == 0 then Fail(OUT_OF_NODE) else ReadChain(s1, Sym(n), room - 1)
  }

  function ReadExpr(s: seq<Item>, min: nat, room: nat): (r: Outcome<Expr>)
    ensures r.Ok? ==> |r.rest| < |s|
    decreases |s|, 4
  {
    var (lhs, s1, room1) :- ReadPrimary(s, room);
    Climb(s1, min, lhs, room1)
  }

  /** The loop of the precedence climber. */
  function Climb(s: seq<Item>, min: nat, lhs: Expr, room: nat): (r: Outcome<Expr>)
    ensures r.Ok? ==> |r.rest| <= |s|
    decreases |s|, 0
  {
    match Head(s)
    case Bad(e) => Fail(e)
    case Tok(t) =>
      if !IsBinop(t) || Precedence(t) < min then Ok(lhs, s, room)
      else
        var (rhs, s1, room1) :- ReadExpr(s[1..], NextMin(t), room);
        if room1 == 0 then Fail(OUT_OF_NODE)
        else Climb(s1, min, Bin(BinopFromToken(t), lhs, rhs), room1 - 1)
  }

  function ReadPrimary(s: seq<Item>, room: nat): (r: Outcome<Expr>)
    ensures r.Ok? ==> |r.rest| < |s|
    decreases |s|, 3
  {
    match Head(s)
    case Bad(e) => Fail(e)
    case Tok(t) =>
      if t == LPAREN then
        var (e, s1, room1) :- ReadExpr(s[1..], 1, room);
        var (_, s2, _) :- Expect(s1, RPAREN, room1);
        Ok(Paren(e), s2, room1)
      else if IsUnop(t) then
        var (e, s1, room1) :- ReadPrimary(s[1..], room);
        if room1 == 0 then Fail(OUT_OF_NODE) else Ok(Un(UnopFromToken(t), e), s1, room1 - 1)
      else if IsBinop(t) then Fail(UNEXPECTED_BINOP)
      else ReadAtom(s, room)
  }

  function ReadAtom(s: seq<Item>, room: nat): (r: Outcome<Expr>)
    ensures r.Ok? ==> |r.rest| < |s|
    decreases |s|, 2
  {
    match Head(s)
    case Bad(e) => Fail(e)
    case Tok(IDENTIFIER(_)) =>
      var (p, s1, room1) :- ReadPlace(s, room);
      TryCall(s1, p, room1)
    case Tok(PRIMITIVE(prim)) =>
      if room == 0 then Fail(OUT_OF_NODE)
      else
        var (p, s1, room1) :- ReadChain(s[1..], Ctor(prim), room - 1);
        TryCall(s1, p, room1)
    case Tok(INSERT) =>
      var (n, s1, room1) :- ReadArchetype(s[1..], room);
      Ok(Insert(n, Head(s1) == Tok(RPAREN)), Tail(s1), room1)
    case Tok(SINGLETON) =>
      var (n, s1, room1) :- ReadArchetype(s[1..], room);
      Ok(Singleton(n, Head(s1) == Tok(RPAREN)), Tail(s1), room1)
    case Tok(LITERAL(l)) =>
      if room == 0 then Fail(OUT_OF_NODE) else Ok(Lit(l), s[1..], room - 1)
    case Tok(_) => Fail(INVALID_ATOM_EXPRESSION)
  }

  /** `(name` after `insert` or `singleton`. The item that follows is dropped by
      the caller, whatever it is: the source does not look at that check. */
  function ReadArchetype(s: seq<Item>, room: nat): (r: Outcome<string>)
    ensures r.Ok? ==> |r.rest| <= |s|
  {
    var (_, s1, _) :- Expect(s, LPAREN, room);
    var (n, s2, _) :- ExpectName(s1, room);
    if room == 0 then Fail(OUT_OF_NODE) else Ok(n, s2, room - 1)
  }

  function TryCall(s: seq<Item>, p: Place, room: nat): (r: Outcome<Expr>)
    ensures r.Ok? ==> |r.rest| <= |s|
    decreases |s|, 1
  {
    match Head(s)
    case Bad(e) => Fail(e)
    case Tok(LPAREN) =>
      var (args, s1, room1) :- ReadArgs(s[1..], room);
      Ok(Call(p, args), s1, room1)
    case Tok(_) => Ok(Ref(p), s, room)
  }

  /** The call node and the arguments, after the `(`. */
  function ReadArgs(s: seq<Item>, room: nat): (r: Outcome<seq<Expr>>)
    ensures r.Ok? ==> |r.rest| <= |s|
    decreases |s|, 5
  {
    if room == 0 then Fail(OUT_OF_NODE)
    else
      match Head(s)
      case Bad(e) => Fail(e)
      case Tok(t) =>
        if t == RPAREN then ReadMoreArgs(s, [], room - 1)
        else
          var (a, s1, room1) :- ReadExpr(s, 0, room - 1);
          ReadMoreArgs(s1, [a], room1)
  }

  function ReadMoreArgs(s: seq<Item>, done: seq<Expr>, room: nat): (r: Outcome<seq<Expr>>)
    ensures r.Ok? ==> |r.rest| <= |s|
    decreases |s|, 0
  {
    match Head(s)
    case Bad(e) => Fail(e)
    case Tok(t) =>
      if t == COMMA then
        var (a, s1, room1) :- ReadExpr(s[1..], 0, room);
        ReadMoreArgs(s1, done + [a], room1)
      else if t == RPAREN then Ok(done, Tail(s), room)
      else Fail(UNEXPECTED_TOKEN)
  }

  // ----- statements

  /** Where a statement list stops. */
  datatype Stop = AtEnd | AtBranch | AtEof

  predicate StopsAt(k: Stop, t: Token) {
    match k
    case AtEnd => t == END
    case AtBranch => t == END || t == ELSE || t == ELIF
    case AtEof => t == EOF
  }

  function ReadStmt(s: seq<Item>, room: nat): (r: Outcome<Stmt>)
    ensures r.Ok? ==> |r.rest| < |s|
    decreases |s|, 2
  {
    match Head(s)
    case Bad(e) => Fail(e)
    case Tok(LET) => ReadLet(s[1..], room)
    case Tok(FUNCTION) => ReadFun(s[1..], room)
    case Tok(RETURN) =>
      var (e, s1, room1) :- ReadExpr(s[1..], 0, room);
      if room1 == 0 then Fail(OUT_OF_NODE) else Ok(Return(e), s1, room1 - 1)
    case Tok(IF) =>
      if room == 0 then Fail(OUT_OF_NODE) else ReadBranches(s[1..], [], room - 1)
    case Tok(WHILE) => ReadWhile(s[1..], room)
    case Tok(IDENTIFIER(_)) => ReadSimple(s, room)
    case Tok(EXPORT) => Fail(UNDEFINED)
    case Tok(FOR) => Fail(UNDEFINED)
    case Tok(BREAK) => Fail(UNDEFINED)
    case Tok(CONTINUE) => Fail(UNDEFINED)
    case Tok(_) => Fail(NON_STATEMENT_TOKEN)
  }

  /** The name, its type and the `=` of a `let`. */
  function ReadLetHead(s: seq<Item>, room: nat): (r: Outcome<(string, Option<VarType>)>)
    ensures r.Ok? ==> |r.rest| < |s|
  {
    var (n, s1, _) :- ExpectName(s, room);
    var (ty, s2, _) :- TryReadType(s1, room);
    var (_, s3, _) :- Expect(s2, ASSIGN, room);
    Ok((n, ty), s3, room)
  }

  function ReadLet(s: seq<Item>, room: nat): (r: Outcome<Stmt>)
    ensures r.Ok? ==> |r.rest| < |s|
  {
    var (h, s1, _) :- ReadLetHead(s, room);
    var (e, s2, room1) :- ReadExpr(s1, 0, room);
    if room1 == 0 then Fail(OUT_OF_NODE) else Ok(Let(h.0, h.1, e), s2, room1 - 1)
  }

  /** An assignment or a call. */
  function ReadSimple(s: seq<Item>, room: nat): (r: Outcome<Stmt>)
    ensures r.Ok? ==> |r.rest| < |s|
  {
    var (p, s1, room1) :- ReadPlace(s, room);
    match Head(s1)
    case Bad(e) => Fail(e)
    case Tok(ASSIGN) =>
      var (e, s2, room2) :- ReadExpr(s1[1..], 0, room1);
      if room2 == 0 then Fail(OUT_OF_NODE) else Ok(Assign(p, e), s2, room2 - 1)
    case Tok(LPAREN) =>
      var (args, s2, room2) :- ReadArgs(s1[1..], room1);
      Ok(Do(p, args), s2, room2)
    case Tok(_) => Fail(IDENTIFIER_AS_STATEMENT)
  }

  /** A compound node and its statements. The stop token stays. */
  function ReadBody(s: seq<Item>, k: Stop, room: nat): (r: Outcome<seq<Stmt>>)
    ensures r.Ok? ==> |r.rest| <= |s|
    ensures r.Ok? ==> Head(r.rest).Tok? && StopsAt(k, Head(r.rest).t)
    decreases |s|, 4
  {
    if room == 0 then Fail(OUT_OF_NODE) else ReadBlock(s, k, [], room - 1)
  }

  function ReadBlock(s: seq<Item>, k: Stop, done: seq<Stmt>, room: nat): (r: Outcome<seq<Stmt>>)
    ensures r.Ok? ==> |r.rest| <= |s|
    ensures r.Ok? ==> Head(r.rest).Tok? && StopsAt(k, Head(r.rest).t)
    decreases |s|, 3
  {
    match Head(s)
    case Bad(e) => Fail(e)
    case Tok(t) =>
      if StopsAt(k, t) then Ok(done, s, room)
      else
        var (st, s1, room1) :- ReadStmt(s, room);
        ReadBlock(s1, k, done + [st], room1)
  }

  /** A condition, `then` and a body. */
  function ReadBranch(s: seq<Item>, room: nat): (r: Outcome<Branch>)
    ensures r.Ok? ==> |r.rest| < |s| && Head(r.rest).Tok?
    decreases |s|, 5
  {
    var (c, s1, room1) :- ReadExpr(s, 0, room);
    var (_, s2, _) :- Expect(s1, THEN, room1);
    var (b, s3, room3) :- ReadBody(s2, AtBranch, room1);
    Ok(Branch(c, b), s3, room3)
  }

  /** A branch, and what follows it up to the `end` of the `if`. */
  function ReadBranches(s: seq<Item>, done: seq<Branch>, room: nat): (r: Outcome<Stmt>)
    ensures r.Ok? ==> |r.rest| <= |s|
    decreases |s|, 6
  {
    var (x, s1, room1) :- ReadBranch(s, room);
    if Head(s1) == Tok(ELIF) then ReadBranches(s1[1..], done + [x], room1)
    else ReadElse(s1, done + [x], room1)
  }

  function ReadElse(s: seq<Item>, done: seq<Branch>, room: nat): (r: Outcome<Stmt>)
    ensures r.Ok? ==> |r.rest| <= |s|
    decreases |s|, 5
  {
    match Head(s)
    case Bad(e) => Fail(e)
    case Tok(t) =>
      if t == ELSE then
        var (b, s1, room1) :- ReadBody(s[1..], AtBranch, room);
        var (_, s2, _) :- Expect(s1, END, room1);
        Ok(If(done, Else(b)), s2, room1)
      else
        var (_, s1, _) :- Expect(s, END, room);
        Ok(If(done, NoElse), s1, room)
  }

  function ReadWhile(s: seq<Item>, room: nat): (r: Outcome<Stmt>)
    ensures r.Ok? ==> |r.rest| < |s|
    decreases |s|, 6
  {
    var (c, s1, room1) :- ReadExpr(s, 0, room);
    if room1 == 0 then Fail(OUT_OF_NODE) else ReadWhileRest(s1, c, room1 - 1)
  }

  function ReadWhileRest(s: seq<Item>, c: Expr, room: nat): (r: Outcome<Stmt>)
    ensures r.Ok? ==> |r.rest| <= |s|
    decreases |s|, 5
  {
    var (_, s1, _) :- Expect(s, DO, room);
    var (b, s2, room2) :- ReadBody(s1, AtEnd, room);
    Ok(While(c, b), Tail(s2), room2)
  }

  function ReadFun(s: seq<Item>, room: nat): (r: Outcome<Stmt>)
    ensures r.Ok? ==> |r.rest| < |s|
    decreases |s|, 7
  {
    var (n, s1, _) :- ExpectName(s, room);
    if room == 0 then Fail(OUT_OF_NODE)
    else
      ReadFunSignature(s1, n, room - 1)
  }

  function ReadFunSignature(s: seq<Item>, n: string, room: nat): (r: Outcome<Stmt>)
    ensures r.Ok? ==> |r.rest| <= |s|
    decreases |s|, 6
  {
    var (_, s1, _) :- Expect(s, LPAREN, room);
    var (ps, s2, room2) :- ReadParams(s1, room);
    ReadFunRest(s2, n, ps, room2)
  }

  function ReadFunRest(s: seq<Item>, n: string, ps: seq<Param>, room: nat): (r: Outcome<Stmt>)
    ensures r.Ok? ==> |r.rest| <= |s|
    decreases |s|, 5
  {
    var (ret, s1, _) :- TryReadType(s, room);
    var (b, s2, room2) :- ReadBody(s1, AtEnd, room);
    Ok(Fun(n, ps, ret, b), Tail(s2), room2)
  }

  function ReadParams(s: seq<Item>, room: nat): (r: Outcome<seq<Param>>)
    ensures r.Ok? ==> |r.rest| <= |s|
  {
    match Head(s)
    case Bad(e) => Fail(e)
    case Tok(t) => if t == RPAREN then Ok([], Tail(s), room) else ReadMoreParams(s, [], room)
  }

  function ReadParam(s: seq<Item>, room: nat): (r: Outcome<Param>)
    ensures r.Ok? ==> |r.rest| < |s|
  {
    var (n, s1, _) :- ExpectName(s, room);
    var (ty, s2, _) :- ReadType(s1, room);
    if room == 0 then Fail(OUT_OF_NODE) else Ok(Param(n, ty), s2, room - 1)
  }

  function ReadMoreParams(s: seq<Item>, done: seq<Param>, room: nat): (r: Outcome<seq<Param>>)
    ensures r.Ok? ==> |r.rest| <= |s|
    decreases |s|
  {
    var (p, s1, room1) :- ReadParam(s, room);
    match Head(s1)
    case Bad(e) => Fail(e)
    case Tok(t) =>
      if t == COMMA then ReadMoreParams(s1[1..], done + [p], room1)
      else if t == RPAREN then Ok(done + [p], Tail(s1), room1)
      else Fail(UNEXPECTED_TOKEN)
  }

  /** A whole module. `import` and `from` at its head make the source loop. */
  function ReadModule(s: seq<Item>, room: nat): Outcome<seq<Stmt>> {
    match Head(s)
    case Bad(e) => Fail(e)
    case Tok(t) =>
      if t == IMPORT || t == FROM then Fail(UNDEFINED)
      else
        var (b, s1, room1) :- ReadBlock(s, AtEof, [], room);
        Ok(b, Tail(s1), room1)
  }
  // ----- one equation for each reader of several parts

  lemma {:induction false} ReadExprIs(s: seq<Item>, min: nat, room: nat)
    ensures var r := ReadPrimary(s, room);
            ReadExpr(s, min, room) == if r.Fail? then Fail(r.error) else Climb(r.rest, min, r.value, r.room)
  {
    hide ReadPrimary, Climb;
  }

  lemma {:induction false} ClimbIs(s: seq<Item>, min: nat, x: Expr, room: nat)
    ensures Head(s).Bad? ==> Climb(s, min, x, room) == Fail(Head(s).e)
    ensures Head(s).Tok? ==>
            var t := Head(s).t;
            if !IsBinop(t) || Precedence(t) < min then Climb(s, min, x, room) == Ok(x, s, room)
            else
              var r := ReadExpr(Tail(s), NextMin(t), room);
              Climb(s, min, x, room)
              == (if r.Fail? then Fail(r.error) else if r.room == 0 then Fail(OUT_OF_NODE)
                  else Climb(r.rest, min, Bin(BinopFromToken(t), x, r.value), r.room - 1))
  {
    hide ReadExpr;
  }

  /** What follows a `(` that begins a primary. */
  ghost function ReadParens(s: seq<Item>, room: nat): Outcome<Expr> {
    match ReadExpr(s, 1, room)
    case Fail(e) => Fail(e)
    case Ok(x, s1, room1) =>
      match Expect(s1, RPAREN, room1)
      case Fail(e) => Fail(e)
      case Ok(_, s2, _) => Ok(Paren(x), s2, room1)
  }

  /** What follows a prefix operator. */
  ghost function ReadUnary(t: Token, s: seq<Item>, room: nat): Outcome<Expr>
    requires IsUnop(t)
  {
    match ReadPrimary(s, room)
    case Fail(e) => Fail(e)
    case Ok(x, s1, room1) => if room1 == 0 then Fail(OUT_OF_NODE) else Ok(Un(UnopFromToken(t), x), s1, room1 - 1)
  }

  lemma {:induction false} PrimaryIs(s: seq<Item>, room: nat)
    ensures ReadPrimary(s, room) ==
            (match Head(s)
             case Bad(e) => Fail(e)
             case Tok(t) =>
               if t == LPAREN then ReadParens(Tail(s), room)
               else if IsUnop(t) then ReadUnary(t, Tail(s), room)
               else if IsBinop(t) then Fail(UNEXPECTED_BINOP)
               else ReadAtom(s, room))
  {
    hide ReadExpr, ReadAtom;
  }

  lemma {:induction false} AtomIs(s: seq<Item>, room: nat)
    ensures ReadAtom(s, room) ==
            (match Head(s)
             case Bad(e) => Fail(e)
             case Tok(IDENTIFIER(_)) =>
               (match ReadPlace(s, room) case Fail(e) => Fail(e) case Ok(p, s1, room1) => TryCall(s1, p, room1))
             case Tok(PRIMITIVE(prim)) =>
               if room == 0 then Fail(OUT_OF_NODE)
               else (match ReadChain(Tail(s), Ctor(prim), room - 1)
                     case Fail(e) => Fail(e)
                     case Ok(p, s1, room1) => TryCall(s1, p, room1))
             case Tok(INSERT) =>
               (match ReadArchetype(Tail(s), room)
                case Fail(e) => Fail(e)
                case Ok(n, s1, room1) => Ok(Insert(n, Head(s1) == Tok(RPAREN)), Tail(s1), room1))
             case Tok(SINGLETON) =>
               (match ReadArchetype(Tail(s), room)
                case Fail(e) => Fail(e)
                case Ok(n, s1, room1) => Ok(Singleton(n, Head(s1) == Tok(RPAREN)), Tail(s1), room1))
             case Tok(LITERAL(l)) => if room == 0 then Fail(OUT_OF_NODE) else Ok(Lit(l), Tail(s), room - 1)
             case Tok(_) => Fail(INVALID_ATOM_EXPRESSION))
  {
    hide ReadPlace, ReadChain, TryCall, ReadArchetype;
  }

  lemma {:induction false} MoreArgsAre(s: seq<Item>, done: seq<Expr>, room: nat)
    ensures var a := ReadExpr(Tail(s), 0, room);
            ReadMoreArgs(s, done, room) ==
            (match Head(s)
             case Bad(e) => Fail(e)
             case Tok(t) =>
               if t == COMMA then
                 if a.Fail? then Fail(a.error) else ReadMoreArgs(a.rest, done + [a.value], a.room)
               else if t == RPAREN then Ok(done, Tail(s), room)
               else Fail(UNEXPECTED_TOKEN))
  {
    hide ReadExpr;
  }

  lemma {:induction false} SimpleIs(s: seq<Item>, room: nat)
    ensures ReadSimple(s, room) ==
            (match ReadPlace(s, room)
             case Fail(e) => Fail(e)
             case Ok(p, s1, room1) =>
               match Head(s1)
               case Bad(e) => Fail(e)
               case Tok(ASSIGN) =>
                 (match ReadExpr(Tail(s1), 0, room1)
                  case Fail(e) => Fail(e)
                  case Ok(x, s2, room2) => if room2 == 0 then Fail(OUT_OF_NODE) else Ok(Assign(p, x), s2, room2 - 1))
               case Tok(LPAREN) =>
                 (match ReadArgs(Tail(s1), room1)
                  case Fail(e) => Fail(e)
                  case Ok(args, s2, room2) => Ok(Do(p, args), s2, room2))
               case Tok(_) => Fail(IDENTIFIER_AS_STATEMENT))
  {
    hide ReadPlace, ReadExpr, ReadArgs;
  }

  /** A condition and its `then`. */
  ghost function ReadGuard(s: seq<Item>, room: nat): Outcome<Expr> {
    match ReadExpr(s, 0, room)
    case Fail(e) => Fail(e)
    case Ok(c, s1, room1) =>
      match Expect(s1, THEN, room1)
      case Fail(e) => Fail(e)
      case Ok(_, s2, _) => Ok(c, s2, room1)
  }

  lemma {:induction false} BranchIs(s: seq<Item>, room: nat)
    ensures ReadBranch(s, room) ==
            (match ReadGuard(s, room)
             case Fail(e) => Fail(e)
             case Ok(c, s1, room1) =>
               match ReadBody(s1, AtBranch, room1)
               case Fail(e) => Fail(e)
               case Ok(b, s2, room2) => Ok(Branch(c, b), s2, room2))
  {
    hide ReadExpr, ReadBody;
  }

  lemma {:induction false} BranchesAre(s: seq<Item>, done: seq<Branch>, room: nat)
    ensures ReadBranches(s, done, room) == (match ReadBranch(s, room)
              case Fail(e) => Fail(e)
              case Ok(x, s1, room1) =>
                if Head(s1) == Tok(ELIF) then ReadBranches(Tail(s1), done + [x], room1)
                else ReadElse(s1, done + [x], room1))
  {
    hide ReadBranch, ReadElse;
  }

  /** The `else` body if there is one. */
  ghost function ReadOtherwise(s: seq<Item>, room: nat): Outcome<Otherwise> {
    match Head(s)
    case Bad(e) => Fail(e)
    case Tok(t) =>
      if t == ELSE then
        match ReadBody(Tail(s), AtBranch, room)
        case Fail(e) => Fail(e)
        case Ok(b, s1, room1) => Ok(Else(b), s1, room1)
      else Ok(NoElse, s, room)
  }

  lemma {:induction false} ElseIs(s: seq<Item>, bs: seq<Branch>, room: nat)
    ensures ReadElse(s, bs, room) ==
            (match ReadOtherwise(s, room)
             case Fail(e) => Fail(e)
             case Ok(els, s1, room1) =>
               match Expect(s1, END, room1)
               case Fail(e) => Fail(e)
               case Ok(_, s2, _) => Ok(If(bs, els), s2, room1))
  {
    hide ReadBody;
  }

  lemma {:induction false} WhileRestIs(s: seq<Item>, c: Expr, room: nat)
    ensures var b := ReadBody(Tail(s), AtEnd, room);
            ReadWhileRest(s, c, room) ==
            (match Head(s)
             case Bad(e) => Fail(e)
             case Tok(t) =>
               if t != DO then Fail(UNEXPECTED_TOKEN)
               else if b.Fail? then Fail(b.error)
               else Ok(While(c, b.value), Tail(b.rest), b.room))
  {
    hide ReadBody;
  }

  lemma {:induction false} BlockIs(s: seq<Item>, k: Stop, done: seq<Stmt>, room: nat)
    ensures ReadBlock(s, k, done, room) == (match Head(s)
              case Bad(e) => Fail(e)
              case Tok(t) =>
                if StopsAt(k, t) then Ok(done, s, room)
                else match ReadStmt(s, room)
                     case Fail(e) => Fail(e)
                     case Ok(st, s1, room1) => ReadBlock(s1, k, done + [st], room1))
  {
    hide ReadStmt;
  }

  lemma {:induction false} MoreParamsAre(s: seq<Item>, done: seq<Param>, room: nat)
    ensures var p := ReadParam(s, room);
            ReadMoreParams(s, done, room) ==
            (if p.Fail? then Fail(p.error)
             else match Head(p.rest)
               case Bad(e) => Fail(e)
               case Tok(t) =>
                 if t == COMMA then ReadMoreParams(Tail(p.rest), done + [p.value], p.room)
                 else if t == RPAREN then Ok(done + [p.value], Tail(p.rest), p.room)
                 else Fail(UNEXPECTED_TOKEN))
  {
    hide ReadParam;
  }

  lemma {:induction false} ModuleIs(s: seq<Item>, room: nat)
    ensures ReadModule(s, room) ==
            (match Head(s)
             case Bad(e) => Fail(e)
             case Tok(t) =>
               if t == IMPORT || t == FROM then Fail(UNDEFINED)
               else
                 match ReadBlock(s, AtEof, [], room)
                 case Fail(e) => Fail(e)
                 case Ok(b, s1, room1) => Ok(b, Tail(s1), room1))
  {
    hide ReadBlock;
  }
}

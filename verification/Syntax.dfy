/** Concrete syntax of nulang: trees that keep the parentheses of the text, the
    token sequence each one spells, and the trees that the operator tables allow. */
module Syntax {
  import opened Options
  import opened Tokens
  import opened Operators

  /** A name with its `.` chain, or a primitive used as a value. */
  datatype Place =
    | Sym(name: string)
    | Member(of: Place, field: string)
    | Ctor(prim: Primitive)
    | Builtin(f: BuiltinFunction)

  /** `closed` records whether `insert(x` or `singleton(x` was followed by `)`:
      the parser ignores that check. */
  datatype Expr =
    | Lit(lit: Literal)
    | Ref(place: Place)
    | Call(callee: Place, args: seq<Expr>)
    | Insert(archetype: string, closed: bool)
    | Singleton(archetype: string, closed: bool)
    | Un(unop: Unop, operand: Expr)
    | Bin(op: Binop, left: Expr, right: Expr)
    | Paren(inner: Expr)

  datatype VarType = Prim(prim: Primitive) | Arch(name: string)
  datatype Param = Param(name: string, ty: VarType)
  datatype Branch = Branch(cond: Expr, body: seq<Stmt>)

  datatype Otherwise = NoElse | Else(body: seq<Stmt>)

  datatype Stmt =
    | Let(name: string, ty: Option<VarType>, init: Expr)
    | Assign(target: Place, value: Expr)
    | Do(callee: Place, args: seq<Expr>)
    | Return(value: Expr)
    | If(branches: seq<Branch>, otherwise: Otherwise)
    | While(cond: Expr, body: seq<Stmt>)
    | Fun(name: string, params: seq<Param>, ret: Option<VarType>, body: seq<Stmt>)

  // ----- what a tree spells

  function PlaceTokens(p: Place): seq<Item> {
    match p
    case Sym(n) => [Tok(IDENTIFIER(n))]
    case Member(q, n) => PlaceTokens(q) + [Tok(DOT), Tok(IDENTIFIER(n))]
    case Ctor(t) => [Tok(PRIMITIVE(t))]
    case Builtin(f) => [Tok(PRIMITIVE(BuiltinPrimitive(f))), Tok(DOT), Tok(IDENTIFIER(BuiltinName(f)))]
  }

  function ExprTokens(e: Expr): seq<Item> {
    match e
    case Lit(l) => [Tok(LITERAL(l))]
    case Ref(p) => PlaceTokens(p)
    case Call(p, args) => PlaceTokens(p) + [Tok(LPAREN)] + ArgTokens(args)
    case Insert(n, _) => [Tok(INSERT), Tok(LPAREN), Tok(IDENTIFIER(n)), Tok(RPAREN)]
    case Singleton(n, _) => [Tok(SINGLETON), Tok(LPAREN), Tok(IDENTIFIER(n)), Tok(RPAREN)]
    case Un(op, x) => [Tok(TokenOfUnop(op))] + ExprTokens(x)
    case Bin(op, l, r) => ExprTokens(l) + ([Tok(TokenOfBinop(op))] + ExprTokens(r))
    case Paren(x) => [Tok(LPAREN)] + (ExprTokens(x) + [Tok(RPAREN)])
  }

  /** The arguments of a call after its `(`, up to and with its `)`. */
  function ArgTokens(args: seq<Expr>): seq<Item> {
    if args == [] then [Tok(RPAREN)] else ExprTokens(args[0]) + MoreArgTokens(args[1..])
  }

  function MoreArgTokens(args: seq<Expr>): seq<Item> {
    if args == [] then [Tok(RPAREN)]
    else [Tok(COMMA)] + (ExprTokens(args[0]) + MoreArgTokens(args[1..]))
  }

  function TypeTokens(ty: VarType): seq<Item> {
    match ty
    case Prim(p) => [Tok(COLON), Tok(PRIMITIVE(p))]
    case Arch(n) => [Tok(COLON), Tok(IDENTIFIER(n))]
  }

  function OptTypeTokens(ty: Option<VarType>): seq<Item> {
    match ty
    case None => []
    case Some(t) => TypeTokens(t)
  }

  /** A non-empty parameter list with its `)`. */
  function ParamTokens(ps: seq<Param>): seq<Item>
    requires ps != []
  {
    [Tok(IDENTIFIER(ps[0].name))] + (TypeTokens(ps[0].ty)
      + (if |ps| == 1 then [Tok(RPAREN)] else [Tok(COMMA)] + ParamTokens(ps[1..])))
  }

  function StmtTokens(st: Stmt): seq<Item> {
    match st
    case Let(n, ty, e) =>
      [Tok(LET), Tok(IDENTIFIER(n))] + (OptTypeTokens(ty) + ([Tok(ASSIGN)] + ExprTokens(e)))
    case Assign(p, e) => PlaceTokens(p) + ([Tok(ASSIGN)] + ExprTokens(e))
    case Do(p, args) => PlaceTokens(p) + [Tok(LPAREN)] + ArgTokens(args)
    case Return(e) => [Tok(RETURN)] + ExprTokens(e)
    case If(bs, els) => [Tok(IF)] + ((if bs == [] then [] else BranchTokens(bs)) + ElseTokens(els))
    case While(c, b) => [Tok(WHILE)] + (ExprTokens(c) + ([Tok(DO)] + (BlockTokens(b) + [Tok(END)])))
    case Fun(n, ps, ret, b) =>
      [Tok(FUNCTION), Tok(IDENTIFIER(n)), Tok(LPAREN)]
      + ((if ps == [] then [Tok(RPAREN)] else ParamTokens(ps))
         + (OptTypeTokens(ret) + (BlockTokens(b) + [Tok(END)])))
  }

  /** The conditions and bodies of an `if` after its first keyword. */
  function BranchTokens(bs: seq<Branch>): seq<Item>
    requires bs != []
    decreases bs, 0
  {
    ExprTokens(bs[0].cond) + ([Tok(THEN)] + (BlockTokens(bs[0].body) + MoreBranchTokens(bs[1..])))
  }

  function MoreBranchTokens(bs: seq<Branch>): seq<Item>
    decreases bs, 1
  {
    if bs == [] then [] else [Tok(ELIF)] + BranchTokens(bs)
  }

  function ElseTokens(els: Otherwise): seq<Item> {
    match els
    case NoElse => [Tok(END)]
    case Else(b) => [Tok(ELSE)] + (BlockTokens(b) + [Tok(END)])
  }

  function BlockTokens(b: seq<Stmt>): seq<Item> {
    if b == [] then [] else StmtTokens(b[0]) + BlockTokens(b[1..])
  }

  // ----- how many arena nodes a tree takes

  function PlaceNodes(p: Place): nat {
    if p.Member? then PlaceNodes(p.of) + 1 else 1
  }

  function ExprNodes(e: Expr): nat {
    match e
    case Lit(_) => 1
    case Ref(p) => PlaceNodes(p)
    case Call(p, args) => PlaceNodes(p) + 1 + ArgNodes(args)
    case Insert(_, _) => 1
    case Singleton(_, _) => 1
    case Un(_, x) => ExprNodes(x) + 1
    case Bin(_, l, r) => ExprNodes(l) + ExprNodes(r) + 1
    case Paren(x) => ExprNodes(x)
  }

  function ArgNodes(args: seq<Expr>): nat {
    if args == [] then 0 else ExprNodes(args[0]) + ArgNodes(args[1..])
  }

  function StmtNodes(st: Stmt): nat {
    match st
    case Let(_, _, e) => ExprNodes(e) + 1
    case Assign(p, e) => PlaceNodes(p) + ExprNodes(e) + 1
    case Do(p, args) => PlaceNodes(p) + 1 + ArgNodes(args)
    case Return(e) => ExprNodes(e) + 1
    case If(bs, els) => 1 + BranchNodes(bs) + ElseNodes(els)
    case While(c, b) => ExprNodes(c) + 2 + BlockNodes(b)
    case Fun(_, ps, _, b) => 1 + |ps| + 1 + BlockNodes(b)
  }

  function BranchNodes(bs: seq<Branch>): nat {
    if bs == [] then 0
    else ExprNodes(bs[0].cond) + 1 + BlockNodes(bs[0].body) + BranchNodes(bs[1..])
  }

  function ElseNodes(els: Otherwise): nat {
    match els
    case NoElse => 0
    case Else(b) => 1 + BlockNodes(b)
  }

  function BlockNodes(b: seq<Stmt>): nat {
    if b == [] then 0 else StmtNodes(b[0]) + BlockNodes(b[1..])
  }

  // ----- the trees the operator tables allow

  predicate RootedInName(p: Place) {
    match p
    case Sym(_) => true
    case Member(q, _) => RootedInName(q)
    case _ => false
  }

  /** Member nodes only grow on symbols: a builtin has no members. */
  predicate GoodPlace(p: Place) {
    p.Ctor? || p.Builtin? || RootedInName(p)
  }

  /** Trees that need no parentheses where a single operand is expected. */
  predicate IsPrimary(e: Expr) {
    !e.Bin?
  }

  /** `e` may stand where operators of precedence at least `min` are read: a left
      operand that is an operation binds tighter than the operator it feeds, and a
      right operand only holds operators that the associativity table lets through. */
  ghost predicate Canon(e: Expr, min: nat) {
    match e
    case Lit(_) => true
    case Ref(p) => GoodPlace(p)
    case Call(p, args) => GoodPlace(p) && CanonArgs(args)
    case Insert(_, _) => true
    case Singleton(_, _) => true
    case Un(_, x) => IsPrimary(x) && Canon(x, 0)
    case Bin(op, l, r) =>
      && op != Sub
      && Precedence(TokenOfBinop(op)) >= min
      && Canon(l, min)
      && (l.Bin? ==> Precedence(TokenOfBinop(op)) < NextMin(TokenOfBinop(l.op)))
      && Canon(r, NextMin(TokenOfBinop(op)))
    case Paren(x) => Canon(x, 1)
  }

  ghost predicate CanonArgs(args: seq<Expr>) {
    args != [] ==> Canon(args[0], 0) && CanonArgs(args[1..])
  }

  /** Statements over such trees. Only names and their members are assigned or called. */
  ghost predicate CanonStmt(st: Stmt) {
    match st
    case Let(_, _, e) => Canon(e, 0)
    case Assign(p, e) => RootedInName(p) && Canon(e, 0)
    case Do(p, args) => RootedInName(p) && CanonArgs(args)
    case Return(e) => Canon(e, 0)
    case If(bs, els) => bs != [] && CanonBranches(bs) && CanonElse(els)
    case While(c, b) => Canon(c, 0) && CanonBlock(b)
    case Fun(_, _, _, b) => CanonBlock(b)
  }

  ghost predicate CanonBranches(bs: seq<Branch>) {
    bs != [] ==> Canon(bs[0].cond, 0) && CanonBlock(bs[0].body) && CanonBranches(bs[1..])
  }

  ghost predicate CanonElse(els: Otherwise) {
    els.Else? ==> CanonBlock(els.body)
  }

  ghost predicate CanonBlock(b: seq<Stmt>) {
    b != [] ==> CanonStmt(b[0]) && CanonBlock(b[1..])
  }

  // ----- every `insert(` and `singleton(` got its `)`

  predicate Closed(e: Expr) {
    match e
    case Lit(_) => true
    case Ref(_) => true
    case Call(_, args) => ClosedArgs(args)
    case Insert(_, c) => c
    case Singleton(_, c) => c
    case Un(_, x) => Closed(x)
    case Bin(_, l, r) => Closed(l) && Closed(r)
    case Paren(x) => Closed(x)
  }

  predicate ClosedArgs(args: seq<Expr>) {
    args != [] ==> Closed(args[0]) && ClosedArgs(args[1..])
  }

  predicate ClosedStmt(st: Stmt) {
    match st
    case Let(_, _, e) => Closed(e)
    case Assign(_, e) => Closed(e)
    case Do(_, args) => ClosedArgs(args)
    case Return(e) => Closed(e)
    case If(bs, els) => ClosedBranches(bs) && ClosedElse(els)
    case While(c, b) => Closed(c) && ClosedBlock(b)
    case Fun(_, _, _, b) => ClosedBlock(b)
  }

  predicate ClosedBranches(bs: seq<Branch>) {
    bs != [] ==> Closed(bs[0].cond) && ClosedBlock(bs[0].body) && ClosedBranches(bs[1..])
  }

  predicate ClosedElse(els: Otherwise) {
    els.Else? ==> ClosedBlock(els.body)
  }

  predicate ClosedBlock(b: seq<Stmt>) {
    b != [] ==> ClosedStmt(b[0]) && ClosedBlock(b[1..])
  }
}

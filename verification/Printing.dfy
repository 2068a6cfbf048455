/** Printing with minimal parentheses, and what it is to the parser. */
module Printing {
  import opened Operators
  import opened Syntax
  import opened Stripping
  import opened Reading
  import opened Canonical

  // ----- the tree with the parentheses it needs

  function Wrap(need: bool, e: Expr): Expr {
    if need then Paren(e) else e
  }

  predicate LeftNeeds(op: Binop, l: Expr) {
    l.Bin? && Precedence(TokenOfBinop(op)) >= NextMin(TokenOfBinop(l.op))
  }

  predicate RightNeeds(op: Binop, r: Expr) {
    r.Bin? && Precedence(TokenOfBinop(r.op)) < NextMin(TokenOfBinop(op))
  }

  function Dress(e: Expr): Expr {
    match e
    case Call(p, args) => Call(p, DressArgs(args))
    case Un(op, x) => Un(op, Wrap(x.Bin?, Dress(x)))
    case Bin(op, l, r) => Bin(op, Wrap(LeftNeeds(op, l), Dress(l)), Wrap(RightNeeds(op, r), Dress(r)))
    case Paren(x) => Paren(Dress(x))
    case _ => e
  }

  function DressArgs(args: seq<Expr>): seq<Expr> {
    if args == [] then [] else [Dress(args[0])] + DressArgs(args[1..])
  }

  function DressStmt(st: Stmt): Stmt {
    match st
    case Let(n, ty, e) => Let(n, ty, Dress(e))
    case Assign(p, e) => Assign(p, Dress(e))
    case Do(p, args) => Do(p, DressArgs(args))
    case Return(e) => Return(Dress(e))
    case If(bs, els) => If(DressBranches(bs), DressElse(els))
    case While(c, b) => While(Dress(c), DressBlock(b))
    case Fun(n, ps, ret, b) => Fun(n, ps, ret, DressBlock(b))
  }

  function DressBranches(bs: seq<Branch>): seq<Branch> {
    if bs == [] then []
    else [Branch(Dress(bs[0].cond), DressBlock(bs[0].body))] + DressBranches(bs[1..])
  }

  function DressElse(els: Otherwise): Otherwise {
    match els
    case NoElse => NoElse
    case Else(b) => Else(DressBlock(b))
  }

  function DressBlock(b: seq<Stmt>): seq<Stmt> {
    if b == [] then [] else [DressStmt(b[0])] + DressBlock(b[1..])
  }

  // ----- the trees an arena can hold: no parentheses, no BINOP_SUB

  predicate Plain(e: Expr) {
    match e
    case Lit(_) => true
    case Ref(p) => GoodPlace(p)
    case Call(p, args) => GoodPlace(p) && PlainArgs(args)
    case Insert(_, c) => c
    case Singleton(_, c) => c
    case Un(_, x) => Plain(x)
    case Bin(op, l, r) => op != Sub && Plain(l) && Plain(r)
    case Paren(_) => false
  }

  predicate PlainArgs(args: seq<Expr>) {
    args != [] ==> Plain(args[0]) && PlainArgs(args[1..])
  }

  predicate PlainStmt(st: Stmt) {
    match st
    case Let(_, _, e) => Plain(e)
    case Assign(p, e) => RootedInName(p) && Plain(e)
    case Do(p, args) => RootedInName(p) && PlainArgs(args)
    case Return(e) => Plain(e)
    case If(bs, els) => bs != [] && PlainBranches(bs) && PlainElse(els)
    case While(c, b) => Plain(c) && PlainBlock(b)
    case Fun(_, _, _, b) => PlainBlock(b)
  }

  predicate PlainBranches(bs: seq<Branch>) {
    bs != [] ==> Plain(bs[0].cond) && PlainBlock(bs[0].body) && PlainBranches(bs[1..])
  }

  predicate PlainElse(els: Otherwise) {
    els.Else? ==> PlainBlock(els.body)
  }

  predicate PlainBlock(b: seq<Stmt>) {
    b != [] ==> PlainStmt(b[0]) && PlainBlock(b[1..])
  }

  /** The precedence at which a plain tree can be read back without outer parentheses. */
  function Level(e: Expr): nat {
    if e.Bin? then Precedence(TokenOfBinop(e.op)) else 1
  }

  /** Dressing a plain tree gives a canonical tree of the same size, and only adds
      parentheses. */
  lemma {:induction false} DressCanon(e: Expr)
    requires Plain(e)
    ensures Canon(Dress(e), Level(e)) && Closed(Dress(e)) && Strip(Dress(e)) == e
    ensures Dress(e).Bin? == e.Bin? && (e.Bin? ==> Dress(e).op == e.op)
    ensures ExprNodes(Dress(e)) == ExprNodes(e)
    decreases e
  {
    hide CanonArgs, ClosedArgs, Precedence, NextMin, TokenOfBinop, LeftNeeds, RightNeeds, Level, Wrap;
    match e
    case Call(_, args) => DressArgsCanon(args);
    case Un(op, x) =>
      DressCanon(x);
      DressUnCanon(op, x);
    case Bin(op, l, r) =>
      DressCanon(l);
      DressCanon(r);
      DressBinCanon(op, l, r);
    case _ =>
  }

  ghost predicate Dressed(e: Expr) {
    && Canon(Dress(e), Level(e)) && Closed(Dress(e)) && Strip(Dress(e)) == e
    && Dress(e).Bin? == e.Bin? && (e.Bin? ==> Dress(e).op == e.op) && ExprNodes(Dress(e)) == ExprNodes(e)
  }

  lemma {:induction false} DressUnCanon(op: Unop, x: Expr)
    requires Plain(Un(op, x)) && Dressed(x)
    ensures Dressed(Un(op, x))
  {
    CanonLower(Dress(x), Level(x), 0);
    if x.Bin? { BinopTokens(x.op); CanonLower(Dress(x), Level(x), 1); }
  }

  lemma {:induction false} DressBinCanon(op: Binop, l: Expr, r: Expr)
    requires Plain(Bin(op, l, r)) && Dressed(l) && Dressed(r)
    ensures Dressed(Bin(op, l, r))
  {
    BinopTokens(op);
    OperandCanon(op, l, LeftNeeds(op, l), Level(Bin(op, l, r)));
    OperandCanon(op, r, RightNeeds(op, r), NextMin(TokenOfBinop(op)));
  }

  lemma {:induction false} OperandCanon(op: Binop, x: Expr, need: bool, min: nat)
    requires Canon(Dress(x), Level(x)) && Dress(x).Bin? == x.Bin? && (x.Bin? ==> x.op != Sub)
    requires need ==> x.Bin?
    requires x.Bin? && !need ==> min <= Level(x)
    ensures Canon(Wrap(need, Dress(x)), min)
  {
    hide Dress;
    if x.Bin? {
      BinopTokens(x.op);
      CanonLower(Dress(x), Level(x), if need then 1 else min);
    }
  }

  lemma {:induction false} DressArgsCanon(args: seq<Expr>)
    requires PlainArgs(args)
    ensures CanonArgs(DressArgs(args)) && ClosedArgs(DressArgs(args)) && StripArgs(DressArgs(args)) == args
    ensures ArgNodes(DressArgs(args)) == ArgNodes(args)
    decreases args
  {
    hide Canon, Closed, Plain, Dress, Strip, ExprNodes;
    if args != [] {
      DressCanon(args[0]);
      CanonLower(Dress(args[0]), Level(args[0]), 0);
      DressArgsCanon(args[1..]);
      assert DressArgs(args)[1..] == DressArgs(args[1..]);
    }
  }

  lemma {:induction false} DressExpr(e: Expr)
    requires Plain(e)
    ensures Canon(Dress(e), 0) && Closed(Dress(e)) && Strip(Dress(e)) == e && ExprNodes(Dress(e)) == ExprNodes(e)
  {
    hide Canon, Closed, Dress, Strip, ExprNodes, Plain;
    DressCanon(e);
    CanonLower(Dress(e), Level(e), 0);
  }

  lemma {:induction false} DressStmtCanon(st: Stmt)
    requires PlainStmt(st)
    ensures CanonStmt(DressStmt(st)) && ClosedStmt(DressStmt(st)) && StripStmt(DressStmt(st)) == st
    ensures StmtNodes(DressStmt(st)) == StmtNodes(st)
    decreases st
  {
    hide Canon, Closed, Dress, Strip, ExprNodes, Plain;
    match st
    case Let(_, _, e) => DressExpr(e);
    case Assign(_, e) => DressExpr(e);
    case Do(_, args) => DressArgsCanon(args);
    case Return(e) => DressExpr(e);
    case If(bs, els) =>
      DressBranchesCanon(bs);
      if els.Else? { DressBlockCanon(els.body); }
    case While(c, b) =>
      DressExpr(c);
      DressBlockCanon(b);
    case Fun(_, _, _, b) => DressBlockCanon(b);
  }

  lemma {:induction false} DressBranchesCanon(bs: seq<Branch>)
    requires PlainBranches(bs)
    ensures CanonBranches(DressBranches(bs)) && ClosedBranches(DressBranches(bs))
    ensures StripBranches(DressBranches(bs)) == bs && |DressBranches(bs)| == |bs|
    ensures BranchNodes(DressBranches(bs)) == BranchNodes(bs)
    decreases bs
  {
    hide Canon, Closed, Dress, Strip, ExprNodes, Plain, CanonBlock, ClosedBlock, DressBlock, StripBlock, BlockNodes,
      PlainBlock;
    if bs != [] {
      DressExpr(bs[0].cond);
      DressBlockCanon(bs[0].body);
      DressBranchesCanon(bs[1..]);
      assert DressBranches(bs)[1..] == DressBranches(bs[1..]);
    }
  }

  lemma {:induction false} DressBlockCanon(b: seq<Stmt>)
    requires PlainBlock(b)
    ensures CanonBlock(DressBlock(b)) && ClosedBlock(DressBlock(b)) && StripBlock(DressBlock(b)) == b
    ensures BlockNodes(DressBlock(b)) == BlockNodes(b)
    decreases b
  {
    hide CanonStmt, ClosedStmt, DressStmt, StripStmt, StmtNodes, PlainStmt;
    if b != [] {
      DressStmtCanon(b[0]);
      DressBlockCanon(b[1..]);
      assert DressBlock(b)[1..] == DressBlock(b[1..]);
    }
  }

  /** Whole-program round trip: printing any program an arena can hold, with minimal
      parentheses and no separators, and parsing the tokens gives that program, and
      it takes exactly its own number of nodes. */
  lemma {:induction false} RoundTrip(b: seq<Stmt>, room: nat)
    requires PlainBlock(b) && BlockNodes(b) <= room
    ensures var r := ReadModule(BlockTokens(DressBlock(b)), room);
            r.Ok? && StripBlock(r.value) == b && r.rest == [] && r.room == room - BlockNodes(b)
  {
    hide PlainBlock, CanonBlock, ClosedBlock, DressBlock, StripBlock, BlockNodes, BlockTokens, ReadModule;
    DressBlockCanon(b);
    ModuleReads(DressBlock(b), room);
  }

  // ----- minimality

  function Parens(e: Expr): nat {
    match e
    case Call(_, args) => ArgParens(args)
    case Un(_, x) => Parens(x)
    case Bin(_, l, r) => Parens(l) + Parens(r)
    case Paren(x) => 1 + Parens(x)
    case _ => 0
  }

  function ArgParens(args: seq<Expr>): nat {
    if args == [] then 0 else Parens(args[0]) + ArgParens(args[1..])
  }

  /** No canonical spelling of a tree has fewer parentheses than the printed one. */
  lemma {:induction false} DressMinimal(c: Expr, min: nat)
    requires Canon(c, min)
    ensures Parens(Dress(Strip(c))) <= Parens(c)
    ensures Strip(c).Bin? && !c.Bin? ==> Parens(Dress(Strip(c))) < Parens(c)
    ensures c.Bin? ==> Strip(c).Bin? && Strip(c).op == c.op
    decreases c
  {
    match c
    case Call(_, args) => DressArgsMinimal(args);
    case Un(_, x) => DressMinimal(x, 0);
    case Bin(op, l, r) =>
      DressMinimal(l, min);
      DressMinimal(r, NextMin(TokenOfBinop(op)));
    case Paren(x) => DressMinimal(x, 1);
    case _ =>
  }

  lemma {:induction false} DressArgsMinimal(args: seq<Expr>)
    requires CanonArgs(args)
    ensures ArgParens(DressArgs(StripArgs(args))) <= ArgParens(args)
    decreases args
  {
    hide Canon, Dress, Strip, Parens;
    if args != [] {
      DressMinimal(args[0], 0);
      DressArgsMinimal(args[1..]);
      assert StripArgs(args)[1..] == StripArgs(args[1..]);
      var d := DressArgs(StripArgs(args));
      assert d[0] == Dress(Strip(args[0])) && d[1..] == DressArgs(StripArgs(args[1..]));
    }
  }

  // ----- what parsing produces can be printed

  /** An accepted tree, without its parentheses, is one that printing is defined on:
      in particular no BINOP_SUB node is ever built. */
  lemma {:induction false} StripPlain(c: Expr, min: nat)
    requires Canon(c, min)
    ensures Plain(Strip(c)) && ExprNodes(Strip(c)) == ExprNodes(c)
    decreases c
  {
    match c
    case Call(_, args) => StripArgsPlain(args);
    case Un(_, x) => StripPlain(x, 0);
    case Bin(op, l, r) =>
      StripPlain(l, min);
      StripPlain(r, NextMin(TokenOfBinop(op)));
    case Paren(x) => StripPlain(x, 1);
    case _ =>
  }

  lemma {:induction false} StripArgsPlain(args: seq<Expr>)
    requires CanonArgs(args)
    ensures PlainArgs(StripArgs(args)) && ArgNodes(StripArgs(args)) == ArgNodes(args)
    decreases args
  {
    hide Canon, Plain, Strip, ExprNodes;
    if args != [] {
      StripPlain(args[0], 0);
      StripArgsPlain(args[1..]);
      assert StripArgs(args)[1..] == StripArgs(args[1..]);
    }
  }
}

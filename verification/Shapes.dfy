/** What the arena holds after a parse, as a grammar of its trees: the children that a
    node of each type has. */
module Shapes {
  import opened Options
  import opened Tokens
  import opened Operators
  import opened Syntax
  import opened Reading
  import opened Sound
  import opened Layout

  predicate IsTarget(v: Val) {
    v.SymRefNode? || v.MemberNode?
  }

  predicate IsCallee(v: Val) {
    IsTarget(v) || v.BuiltinNode?
  }

  predicate IsExpr(v: Val) {
    || IsCallee(v) || v.LiteralNode? || v.CallNode? || v.BinopNode? || v.UnopNode? || v.InsertNode? || v.SingletonNode?
  }

  predicate IsStmt(v: Val) {
    || v.VarDeclNode? || v.AssignNode? || v.CallNode? || v.ReturnNode? || v.IfNode? || v.WhileNode? || v.FunDeclNode?
  }

  ghost predicate AllExprs(ts: seq<Tree>) {
    forall i :: 0 <= i < |ts| ==> IsExpr(ts[i].val)
  }

  /** A call that is a statement calls a name or member, no builtin. */
  ghost predicate IsStmtTree(t: Tree) {
    IsStmt(t.val) && (t.val.CallNode? ==> t.kids != [] && IsTarget(t.kids[0].val))
  }

  ghost predicate AllStmts(ts: seq<Tree>) {
    forall i :: 0 <= i < |ts| ==> IsStmtTree(ts[i])
  }

  ghost predicate AllArgs(ts: seq<Tree>) {
    forall i :: 0 <= i < |ts| ==> ts[i].val.ArgDeclNode?
  }

  /** Conditions and bodies by turns, each condition with its body. */
  ghost predicate Alternate(ts: seq<Tree>) {
    |ts| % 2 == 0 && forall i :: 0 <= i < |ts| ==> if i % 2 == 0 then IsExpr(ts[i].val) else ts[i].val.CompoundNode?
  }

  /** The children of one node. */
  ghost predicate Children(v: Val, ts: seq<Tree>) {
    match v
    case ModuleNode => AllStmts(ts)
    case CompoundNode => AllStmts(ts)
    case FunDeclNode(_, _, exported) =>
      !exported && ts != [] && AllArgs(ts[..|ts| - 1]) && ts[|ts| - 1].val.CompoundNode?
    case IfNode =>
      |ts| >= 2 && if |ts| % 2 == 0 then Alternate(ts) else Alternate(ts[..|ts| - 1]) && ts[|ts| - 1].val.CompoundNode?
    case WhileNode => |ts| == 2 && IsExpr(ts[0].val) && ts[1].val.CompoundNode?
    case VarDeclNode(_, _) => |ts| == 1 && AllExprs(ts)
    case ReturnNode => |ts| == 1 && AllExprs(ts)
    case AssignNode => |ts| == 2 && IsTarget(ts[0].val) && IsExpr(ts[1].val)
    case CallNode => ts != [] && IsCallee(ts[0].val) && AllExprs(ts[1..])
    case BinopNode(op) => op != Sub && |ts| == 2 && AllExprs(ts)
    case UnopNode(_) => |ts| == 1 && AllExprs(ts)
    case MemberNode(_) => |ts| == 1 && IsTarget(ts[0].val)
    case SymRefNode(_, node) => node == 0xffff_ffff && ts == []
    case _ => ts == []
  }

  ghost predicate WellShaped(t: Tree)
    decreases t, 0
  {
    Children(t.val, t.kids) && AllShaped(t.kids)
  }

  ghost predicate AllShaped(ts: seq<Tree>)
    decreases ts, 1
  {
    forall i :: 0 <= i < |ts| ==> WellShaped(ts[i])
  }

  // ----- expressions

  lemma {:induction false} PlaceShaped(p: Place, lo: nat)
    requires GoodPlace(p)
    ensures WellShaped(LayPlace(p, lo)) && IsCallee(LayPlace(p, lo).val)
    ensures RootedInName(p) ==> IsTarget(LayPlace(p, lo).val)
  {
    if p.Member? { PlaceShaped(p.of, lo); }
  }

  lemma {:induction false} OneKid(v: Val, a: Tree, id: nat)
    requires WellShaped(a) && Children(v, [a])
    ensures WellShaped(Tree(id, v, [a]))
  {
    hide Children;
    assert AllShaped([a]) by { hide WellShaped; }
  }

  lemma {:induction false} TwoKids(v: Val, a: Tree, b: Tree, id: nat)
    requires WellShaped(a) && WellShaped(b) && Children(v, [a, b])
    ensures WellShaped(Tree(id, v, [a, b]))
  {
    hide Children;
    assert AllShaped([a, b]) by { hide WellShaped; }
  }

  lemma {:induction false} ExprShaped(e: Expr, min: nat, lo: nat)
    requires Canon(e, min)
    ensures WellShaped(LayExpr(e, lo)) && IsExpr(LayExpr(e, lo).val)
    decreases e, 1
  {
    hide LayPlace, LayCall, GoodPlace, CanonArgs, Precedence, NextMin, PlaceNodes, ExprNodes, WellShaped, IsExpr;
    match e
    case Ref(p) =>
      PlaceShaped(p, lo);
      CalleeIsExpr(LayPlace(p, lo).val);
    case Call(p, args) =>
      CallShaped(p, args, lo);
      CallIs(p, args, lo);
    case Un(op, x) =>
      ExprShaped(x, 0, lo);
      OneKid(UnopNode(op), LayExpr(x, lo), lo + ExprNodes(x));
      OperationIs(UnopNode(op));
    case Bin(op, l, r) =>
      ExprShaped(l, min, lo);
      ExprShaped(r, NextMin(TokenOfBinop(op)), lo + ExprNodes(l));
      TwoKids(BinopNode(op), LayExpr(l, lo), LayExpr(r, lo + ExprNodes(l)), lo + ExprNodes(l) + ExprNodes(r));
      OperationIs(BinopNode(op));
    case Paren(x) => ExprShaped(x, 1, lo);
    case _ => LeafShaped(LayExpr(e, lo));
  }

  lemma {:induction false} CalleeIsExpr(v: Val)
    requires IsCallee(v)
    ensures IsExpr(v)
  {
  }

  lemma {:induction false} OperationIs(v: Val)
    requires v.BinopNode? || v.UnopNode?
    ensures IsExpr(v)
  {
  }

  lemma {:induction false} LeafShaped(t: Tree)
    requires (t.val.LiteralNode? || t.val.InsertNode? || t.val.SingletonNode?) && t.kids == []
    ensures WellShaped(t) && IsExpr(t.val)
  {
  }

  lemma {:induction false} CallIs(p: Place, args: seq<Expr>, lo: nat)
    ensures LayCall(p, args, lo).val.CallNode? && IsExpr(LayCall(p, args, lo).val)
  {
  }

  lemma {:induction false} CallShaped(p: Place, args: seq<Expr>, lo: nat)
    requires GoodPlace(p) && CanonArgs(args)
    ensures WellShaped(LayCall(p, args, lo))
    decreases args, 2
  {
    hide LayPlace, LayArgs, GoodPlace, CanonArgs, PlaceNodes;
    PlaceShaped(p, lo);
    EachArg(args);
    ArgsShaped(args, lo + PlaceNodes(p) + 1);
    var t := LayCall(p, args, lo);
    assert t.kids[1..] == LayArgs(args, lo + PlaceNodes(p) + 1);
  }

  lemma {:induction false} EachArg(args: seq<Expr>)
    requires CanonArgs(args)
    ensures forall i :: 0 <= i < |args| ==> Canon(args[i], 0)
    decreases args
  {
    hide Canon;
    if args != [] { EachArg(args[1..]); }
  }

  lemma {:induction false} ArgsShaped(args: seq<Expr>, lo: nat)
    requires forall i :: 0 <= i < |args| ==> Canon(args[i], 0)
    ensures AllShaped(LayArgs(args, lo)) && AllExprs(LayArgs(args, lo))
    decreases args, 0
  {
    hide Canon, LayExpr, WellShaped, IsExpr, ArgNodes;
    if args != [] {
      var most := args[..|args| - 1];
      ArgsShaped(most, lo);
      ExprShaped(args[|args| - 1], 0, lo + ArgNodes(most));
    }
  }

  // ----- statements

  lemma {:induction false} StmtShaped(st: Stmt, lo: nat)
    requires CanonStmt(st)
    ensures WellShaped(LayStmt(st, lo)) && IsStmtTree(LayStmt(st, lo))
    decreases st, 1
  {
    hide LayPlace, LayExpr, LayCall, LayBody, LayParams, LayBranches, LayElse, Canon, CanonArgs, CanonBlock,
      CanonBranches, CanonElse, PlaceNodes, ExprNodes, BranchNodes, IsExpr, IsTarget, Alternate, WellShaped;
    match st
    case Let(n, ty, e) =>
      ExprShaped(e, 0, lo);
      OneKid(VarDeclNode(n, ty), LayExpr(e, lo), lo + ExprNodes(e));
    case Assign(p, e) => AssignShaped(p, e, lo);
    case Do(p, args) =>
      CallShaped(p, args, lo);
      NameCalled(p, args, lo);
    case Return(e) =>
      ExprShaped(e, 0, lo);
      OneKid(ReturnNode, LayExpr(e, lo), lo + ExprNodes(e));
    case If(bs, els) => IfShaped(bs, els, lo);
    case While(c, b) =>
      ExprShaped(c, 0, lo);
      BodyShaped(b, lo + ExprNodes(c) + 1);
      TwoKids(WhileNode, LayExpr(c, lo), LayBody(b, lo + ExprNodes(c) + 1), lo + ExprNodes(c));
    case Fun(n, ps, ret, b) => FunShaped(n, ps, ret, b, lo);
  }

  lemma {:induction false} NameCalled(p: Place, args: seq<Expr>, lo: nat)
    requires RootedInName(p)
    ensures IsStmtTree(LayCall(p, args, lo))
  {
    hide LayPlace, LayArgs;
    PlaceShaped(p, lo);
  }

  lemma {:induction false} AssignShaped(p: Place, e: Expr, lo: nat)
    requires RootedInName(p) && Canon(e, 0)
    ensures WellShaped(LayStmt(Assign(p, e), lo))
  {
    hide LayPlace, LayExpr, Canon, PlaceNodes, ExprNodes, IsExpr, IsTarget, WellShaped;
    PlaceShaped(p, lo);
    ExprShaped(e, 0, lo + PlaceNodes(p));
    TwoKids(AssignNode, LayPlace(p, lo), LayExpr(e, lo + PlaceNodes(p)), lo + PlaceNodes(p) + ExprNodes(e));
  }

  lemma {:induction false} SnocShaped(ts: seq<Tree>, t: Tree)
    requires AllShaped(ts) && WellShaped(t)
    ensures AllShaped(ts + [t]) && (ts + [t])[..|ts|] == ts
  {
    hide WellShaped;
  }

  lemma {:induction false} FunShaped(n: string, ps: seq<Param>, ret: Option<VarType>, b: seq<Stmt>, lo: nat)
    requires CanonBlock(b)
    ensures WellShaped(LayStmt(Fun(n, ps, ret, b), lo))
    decreases Fun(n, ps, ret, b), 0
  {
    hide LayBody, LayParams, CanonBlock, AllShaped, AllArgs;
    var kids, body := LayParams(ps, lo + 1), LayBody(b, lo + 1 + |ps|);
    BodyShaped(b, lo + 1 + |ps|);
    ParamsShaped(ps, lo + 1);
    SnocShaped(kids, body);
    assert LayStmt(Fun(n, ps, ret, b), lo) == Tree(lo, FunDeclNode(n, ret, false), kids + [body]);
  }

  lemma {:induction false} IfShaped(bs: seq<Branch>, els: Otherwise, lo: nat)
    requires CanonStmt(If(bs, els))
    ensures WellShaped(LayStmt(If(bs, els), lo))
    decreases If(bs, els), 0
  {
    hide LayBody, LayBranches, CanonBlock, CanonBranches, BranchNodes, Alternate, AllShaped;
    EachBranch(bs);
    BranchesShaped(bs, lo + 1);
    var kids, after := LayBranches(bs, lo + 1), lo + 1 + BranchNodes(bs);
    var t := LayStmt(If(bs, els), lo);
    assert t == Tree(lo, IfNode, kids + LayElse(els, after));
    match els
    case NoElse => assert kids + [] == kids;
    case Else(b) =>
      BodyShaped(b, after);
      SnocShaped(kids, LayBody(b, after));
  }

  lemma {:induction false} EachBranch(bs: seq<Branch>)
    requires CanonBranches(bs)
    ensures forall i :: 0 <= i < |bs| ==> Canon(bs[i].cond, 0) && CanonBlock(bs[i].body)
    decreases bs
  {
    hide Canon, CanonBlock;
    if bs != [] { EachBranch(bs[1..]); }
  }

  lemma {:induction false} BranchesShaped(bs: seq<Branch>, lo: nat)
    requires forall i :: 0 <= i < |bs| ==> Canon(bs[i].cond, 0) && CanonBlock(bs[i].body)
    ensures AllShaped(LayBranches(bs, lo)) && Alternate(LayBranches(bs, lo)) && |LayBranches(bs, lo)| == 2 * |bs|
    decreases bs, 0
  {
    hide Canon, CanonBlock, LayExpr, LayBody, WellShaped, IsExpr, BranchNodes, ExprNodes, Alternate, AllShaped;
    if bs == [] {
      NoneShaped();
    } else {
      var most, b := bs[..|bs| - 1], bs[|bs| - 1];
      var m := lo + BranchNodes(most);
      BranchesShaped(most, lo);
      ExprShaped(b.cond, 0, m);
      BodyShaped(b.body, m + ExprNodes(b.cond));
      BranchSnoc(LayBranches(most, lo), LayExpr(b.cond, m), LayBody(b.body, m + ExprNodes(b.cond)));
    }
  }

  lemma {:induction false} NoneShaped()
    ensures AllShaped([]) && Alternate([])
  {
  }

  lemma {:induction false} BranchSnoc(ts: seq<Tree>, c: Tree, b: Tree)
    requires AllShaped(ts) && Alternate(ts) && WellShaped(c) && WellShaped(b) && IsExpr(c.val) && b.val.CompoundNode?
    ensures AllShaped(ts + [c, b]) && Alternate(ts + [c, b])
  {
    hide WellShaped, IsExpr;
  }

  lemma {:induction false} ParamsShaped(ps: seq<Param>, lo: nat)
    ensures AllShaped(LayParams(ps, lo)) && AllArgs(LayParams(ps, lo))
    decreases ps
  {
    if ps != [] { ParamsShaped(ps[..|ps| - 1], lo); }
  }

  lemma {:induction false} BodyShaped(b: seq<Stmt>, lo: nat)
    requires CanonBlock(b)
    ensures WellShaped(LayBody(b, lo)) && LayBody(b, lo).val.CompoundNode?
    decreases b, 2
  {
    hide CanonBlock, LayBlock;
    EachStmt(b);
    BlockShaped(b, lo + 1);
  }

  lemma {:induction false} EachStmt(b: seq<Stmt>)
    requires CanonBlock(b)
    ensures forall i :: 0 <= i < |b| ==> CanonStmt(b[i])
    decreases b
  {
    hide CanonStmt;
    if b != [] { EachStmt(b[1..]); }
  }

  lemma {:induction false} BlockShaped(b: seq<Stmt>, lo: nat)
    requires forall i :: 0 <= i < |b| ==> CanonStmt(b[i])
    ensures AllShaped(LayBlock(b, lo)) && AllStmts(LayBlock(b, lo))
    decreases b, 0
  {
    hide CanonStmt, LayStmt, WellShaped, IsStmtTree, BlockNodes;
    if b != [] {
      var most := b[..|b| - 1];
      BlockShaped(most, lo);
      StmtShaped(b[|b| - 1], lo + BlockNodes(most));
    }
  }

  /** Whatever the parser accepts, the nodes in the arena have the children of their
      type, with no reference resolved yet. */
  lemma {:induction false} ModuleShaped(s: seq<Item>, room: nat)
    requires ReadModule(s, room).Ok?
    ensures WellShaped(LayModule(ReadModule(s, room).value))
  {
    hide ReadBlock, CanonBlock, LayBlock, BlockTokens, BlockNodes, ClosedBlock;
    BlockSound(s, AtEof, [], room);
    var b := ReadModule(s, room).value;
    assert b[0..] == b;
    EachStmt(b);
    BlockShaped(b, 1);
  }
}

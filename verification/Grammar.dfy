/** The trees that a parse can leave in the arena, exactly: those of the right shape
    whose ids follow the order of allocation. */
module Grammar {
  import opened Tokens
  import opened Operators
  import opened Syntax
  import opened Reading
  import opened Layout
  import opened Printing
  import opened Shapes
  import opened Stripping

  // ----- the order of allocation

  function Count(t: Tree): nat
    decreases t, 0
  {
    1 + Counts(t.kids)
  }

  function Counts(ts: seq<Tree>): nat
    decreases ts, 1
  {
    if ts == [] then 0 else Counts(ts[..|ts| - 1]) + Count(ts[|ts| - 1])
  }

  /** When a node is allocated: before its children, after the first of them, or last. */
  datatype Turn = First | Second | Last

  function TurnOf(v: Val): Turn {
    match v
    case ModuleNode => First
    case CompoundNode => First
    case FunDeclNode(_, _, _) => First
    case IfNode => First
    case WhileNode => Second
    case CallNode => Second
    case _ => Last
  }

  /** The ids of the tree are the next ones from `lo` on, in the order of allocation. */
  ghost predicate Numbered(t: Tree, lo: nat)
    decreases t, 0
  {
    match TurnOf(t.val)
    case First => t.id == lo && NumberedAll(t.kids, lo + 1)
    case Second =>
      t.kids != [] && Numbered(t.kids[0], lo) && t.id == lo + Count(t.kids[0]) && NumberedAll(t.kids[1..], t.id + 1)
    case Last => NumberedAll(t.kids, lo) && t.id == lo + Counts(t.kids)
  }

  ghost predicate NumberedAll(ts: seq<Tree>, lo: nat)
    decreases ts, 1
  {
    ts != [] ==> NumberedAll(ts[..|ts| - 1], lo) && Numbered(ts[|ts| - 1], lo + Counts(ts[..|ts| - 1]))
  }

  lemma {:induction false} NoneNumbered(lo: nat)
    ensures NumberedAll([], lo) && Counts([]) == 0
  {
  }

  lemma {:induction false} SnocNumbered(ts: seq<Tree>, t: Tree, lo: nat)
    ensures Counts(ts + [t]) == Counts(ts) + Count(t)
    ensures NumberedAll(ts + [t], lo) <==> NumberedAll(ts, lo) && Numbered(t, lo + Counts(ts))
  {
    hide Count, Numbered;
    assert (ts + [t])[..|ts|] == ts;
  }

  lemma {:induction false} OneNumbered(t: Tree, lo: nat)
    ensures Counts([t]) == Count(t) && (NumberedAll([t], lo) <==> Numbered(t, lo))
  {
    hide Count, Numbered, Counts, NumberedAll;
    NoneNumbered(lo);
    SnocNumbered([], t, lo);
    assert [] + [t] == [t];
  }

  lemma {:induction false} TwoNumbered(t: Tree, u: Tree, lo: nat)
    ensures Counts([t, u]) == Count(t) + Count(u)
    ensures NumberedAll([t, u], lo) <==> Numbered(t, lo) && Numbered(u, lo + Count(t))
  {
    hide Count, Numbered, Counts, NumberedAll;
    OneNumbered(t, lo);
    SnocNumbered([t], u, lo);
    assert [t] + [u] == [t, u];
  }

  lemma {:induction false} Tip(t: Tree, lo: nat)
    requires t.kids == [] && TurnOf(t.val).Last?
    ensures Count(t) == 1 && (Numbered(t, lo) <==> t.id == lo)
  {
  }

  lemma {:induction false} SecondCount(t: Tree)
    requires t.kids != []
    ensures Count(t) == 1 + Count(t.kids[0]) + Counts(t.kids[1..])
  {
    hide Count;
    assert Count(t) == 1 + Counts(t.kids) by { CountIs(t); }
    FirstCount(t.kids);
  }

  lemma {:induction false} CountIs(t: Tree)
    ensures Count(t) == 1 + Counts(t.kids)
  {
  }

  lemma {:induction false} FirstCount(ts: seq<Tree>)
    requires ts != []
    ensures Counts(ts) == Count(ts[0]) + Counts(ts[1..])
    decreases ts
  {
    hide Count;
    if |ts| == 1 {
      assert ts[1..] == [] && ts == [ts[0]];
      OneNumbered(ts[0], 0);
    } else {
      var most := ts[..|ts| - 1];
      FirstCount(most);
      assert ts[1..][..|ts| - 2] == most[1..];
    }
  }

  // ----- the parser's layouts are numbered in that order

  lemma {:induction false} PlaceNumbered(p: Place, lo: nat)
    ensures Numbered(LayPlace(p, lo), lo) && Count(LayPlace(p, lo)) == PlaceNodes(p)
  {
    match p
    case Member(q, n) =>
      PlaceNumbered(q, lo);
      OneNumbered(LayPlace(q, lo), lo);
    case _ => Tip(LayPlace(p, lo), lo);
  }

  lemma {:induction false} ExprNumbered(e: Expr, lo: nat)
    ensures Numbered(LayExpr(e, lo), lo) && Count(LayExpr(e, lo)) == ExprNodes(e)
    decreases e, 1
  {
    hide Numbered, Count, NumberedAll, Counts, LayPlace, LayCall, PlaceNodes;
    match e
    case Lit(_) => Tip(LayExpr(e, lo), lo);
    case Insert(_, _) => Tip(LayExpr(e, lo), lo);
    case Singleton(_, _) => Tip(LayExpr(e, lo), lo);
    case Ref(p) => PlaceNumbered(p, lo);
    case Call(p, args) => CallNumbered(p, args, lo);
    case Un(op, x) =>
      ExprNumbered(x, lo);
      LastOverOne(LayExpr(e, lo), LayExpr(x, lo), lo);
    case Bin(op, l, r) =>
      ExprNumbered(l, lo);
      ExprNumbered(r, lo + ExprNodes(l));
      LastOverTwo(LayExpr(e, lo), LayExpr(l, lo), LayExpr(r, lo + ExprNodes(l)), lo);
    case Paren(x) => ExprNumbered(x, lo);
  }

  lemma {:induction false} LastOverOne(t: Tree, c: Tree, lo: nat)
    requires t.kids == [c] && TurnOf(t.val).Last?
    ensures Count(t) == Count(c) + 1
    ensures Numbered(t, lo) <==> Numbered(c, lo) && t.id == lo + Count(c)
  {
    hide Counts, NumberedAll;
    OneNumbered(c, lo);
    CountIs(t);
  }

  lemma {:induction false} LastOverTwo(t: Tree, c: Tree, d: Tree, lo: nat)
    requires t.kids == [c, d] && TurnOf(t.val).Last?
    ensures Count(t) == Count(c) + Count(d) + 1
    ensures Numbered(t, lo) <==> Numbered(c, lo) && Numbered(d, lo + Count(c)) && t.id == lo + Count(c) + Count(d)
  {
    hide Counts, NumberedAll;
    TwoNumbered(c, d, lo);
    CountIs(t);
  }

  lemma {:induction false} FirstOverAll(t: Tree, lo: nat)
    requires TurnOf(t.val).First?
    ensures Count(t) == Counts(t.kids) + 1
    ensures Numbered(t, lo) <==> t.id == lo && NumberedAll(t.kids, lo + 1)
  {
    hide Counts, NumberedAll;
    CountIs(t);
  }

  lemma {:induction false} SecondOver(t: Tree, lo: nat)
    requires TurnOf(t.val).Second? && t.kids != []
    ensures Count(t) == Count(t.kids[0]) + 1 + Counts(t.kids[1..])
    ensures Numbered(t, lo) <==>
              Numbered(t.kids[0], lo) && t.id == lo + Count(t.kids[0]) && NumberedAll(t.kids[1..], t.id + 1)
  {
    hide Counts, NumberedAll;
    SecondCount(t);
  }

  lemma {:induction false} CallNumbered(p: Place, args: seq<Expr>, lo: nat)
    ensures Numbered(LayCall(p, args, lo), lo) && Count(LayCall(p, args, lo)) == PlaceNodes(p) + 1 + ArgNodes(args)
    decreases args, 2
  {
    hide Numbered, Count, NumberedAll, Counts, LayPlace, LayArgs, PlaceNodes, ArgNodes;
    var t := LayCall(p, args, lo);
    PlaceNumbered(p, lo);
    ArgsNumbered(args, lo + PlaceNodes(p) + 1);
    assert t.kids[1..] == LayArgs(args, lo + PlaceNodes(p) + 1);
    SecondOver(t, lo);
  }

  lemma {:induction false} ArgsNumbered(args: seq<Expr>, lo: nat)
    ensures NumberedAll(LayArgs(args, lo), lo) && Counts(LayArgs(args, lo)) == ArgNodes(args)
    decreases args, 0
  {
    hide Numbered, Count, NumberedAll, Counts, LayExpr, ExprNodes, ArgNodes;
    if args == [] {
      NoneNumbered(lo);
      assert ArgNodes([]) == 0 by { NoNodes(); }
    } else {
      var most, e := args[..|args| - 1], args[|args| - 1];
      ArgsNumbered(most, lo);
      ExprNumbered(e, lo + ArgNodes(most));
      SnocNumbered(LayArgs(most, lo), LayExpr(e, lo + ArgNodes(most)), lo);
      ArgNodesSnoc(most, e);
      assert args == most + [e];
    }
  }

  lemma {:induction false} NoNodes()
    ensures ArgNodes([]) == BlockNodes([]) == BranchNodes([]) == 0
  {
  }

  lemma {:induction false} StmtNumbered(st: Stmt, lo: nat)
    ensures Numbered(LayStmt(st, lo), lo) && Count(LayStmt(st, lo)) == StmtNodes(st)
    decreases st, 1
  {
    hide Numbered, Count, NumberedAll, Counts, LayPlace, LayExpr, LayCall, LayBody, LayParams, LayBranches, LayElse,
      PlaceNodes, ExprNodes, ArgNodes, BlockNodes, BranchNodes, ElseNodes;
    var t := LayStmt(st, lo);
    match st
    case Let(_, _, e) =>
      ExprNumbered(e, lo);
      LastOverOne(t, LayExpr(e, lo), lo);
    case Assign(p, e) =>
      PlaceNumbered(p, lo);
      ExprNumbered(e, lo + PlaceNodes(p));
      LastOverTwo(t, LayPlace(p, lo), LayExpr(e, lo + PlaceNodes(p)), lo);
    case Do(p, args) => CallNumbered(p, args, lo);
    case Return(e) =>
      ExprNumbered(e, lo);
      LastOverOne(t, LayExpr(e, lo), lo);
    case If(bs, els) => IfNumbered(bs, els, lo);
    case While(c, b) =>
      ExprNumbered(c, lo);
      BodyNumbered(b, lo + ExprNodes(c) + 1);
      assert t.kids[1..] == [LayBody(b, lo + ExprNodes(c) + 1)];
      OneNumbered(LayBody(b, lo + ExprNodes(c) + 1), lo + ExprNodes(c) + 1);
      SecondOver(t, lo);
    case Fun(n, ps, ret, b) =>
      ParamsNumbered(ps, lo + 1);
      BodyNumbered(b, lo + 1 + |ps|);
      SnocNumbered(LayParams(ps, lo + 1), LayBody(b, lo + 1 + |ps|), lo + 1);
      FirstOverAll(t, lo);
  }

  lemma {:induction false} IfNumbered(bs: seq<Branch>, els: Otherwise, lo: nat)
    ensures Numbered(LayStmt(If(bs, els), lo), lo) && Count(LayStmt(If(bs, els), lo)) == StmtNodes(If(bs, els))
    decreases If(bs, els), 0
  {
    hide Numbered, Count, NumberedAll, Counts, LayBody, LayBranches, BlockNodes, BranchNodes;
    var t, after := LayStmt(If(bs, els), lo), lo + 1 + BranchNodes(bs);
    assert t == Tree(lo, IfNode, LayBranches(bs, lo + 1) + LayElse(els, after));
    BranchesNumbered(bs, lo + 1);
    FirstOverAll(t, lo);
    match els
    case NoElse =>
      NothingMore(LayBranches(bs, lo + 1));
    case Else(b) =>
      BodyNumbered(b, after);
      SnocNumbered(LayBranches(bs, lo + 1), LayBody(b, after), lo + 1);
  }

  lemma {:induction false} NothingMore<T>(s: seq<T>)
    ensures s + [] == s
  {
  }

  lemma {:induction false} ParamsNumbered(ps: seq<Param>, lo: nat)
    ensures NumberedAll(LayParams(ps, lo), lo) && Counts(LayParams(ps, lo)) == |ps|
    decreases ps
  {
    hide Numbered, Count, NumberedAll, Counts;
    if ps == [] {
      NoneNumbered(lo);
    } else {
      var most, p := ps[..|ps| - 1], ps[|ps| - 1];
      var t := Tree(lo + |most|, ArgDeclNode(p.name, p.ty), []);
      ParamsNumbered(most, lo);
      Tip(t, lo + |most|);
      SnocNumbered(LayParams(most, lo), t, lo);
    }
  }

  lemma {:induction false} BranchesNumbered(bs: seq<Branch>, lo: nat)
    ensures NumberedAll(LayBranches(bs, lo), lo) && Counts(LayBranches(bs, lo)) == BranchNodes(bs)
    decreases bs, 0
  {
    hide Numbered, Count, NumberedAll, Counts, LayExpr, LayBody, ExprNodes, BlockNodes, BranchNodes;
    if bs == [] {
      NoneNumbered(lo);
      NoNodes();
    } else {
      var most, b := bs[..|bs| - 1], bs[|bs| - 1];
      var m := lo + BranchNodes(most);
      BranchesNumbered(most, lo);
      ExprNumbered(b.cond, m);
      BodyNumbered(b.body, m + ExprNodes(b.cond));
      TwoMore(LayBranches(most, lo), LayExpr(b.cond, m), LayBody(b.body, m + ExprNodes(b.cond)), lo);
      BranchNodesSnoc(most, b);
      assert bs == most + [b];
    }
  }

  lemma {:induction false} TwoMore(ts: seq<Tree>, c: Tree, d: Tree, lo: nat)
    ensures Counts(ts + [c, d]) == Counts(ts) + Count(c) + Count(d)
    ensures NumberedAll(ts + [c, d], lo) <==>
              NumberedAll(ts, lo) && Numbered(c, lo + Counts(ts)) && Numbered(d, lo + Counts(ts) + Count(c))
  {
    hide Numbered, Count, NumberedAll, Counts;
    SnocNumbered(ts, c, lo);
    SnocNumbered(ts + [c], d, lo);
    assert ts + [c] + [d] == ts + [c, d];
  }

  lemma {:induction false} BodyNumbered(b: seq<Stmt>, lo: nat)
    ensures Numbered(LayBody(b, lo), lo) && Count(LayBody(b, lo)) == 1 + BlockNodes(b)
    decreases b, 2
  {
    hide Numbered, Count, NumberedAll, Counts, LayBlock, BlockNodes;
    BlockNumbered(b, lo + 1);
    FirstOverAll(LayBody(b, lo), lo);
  }

  lemma {:induction false} BlockNumbered(b: seq<Stmt>, lo: nat)
    ensures NumberedAll(LayBlock(b, lo), lo) && Counts(LayBlock(b, lo)) == BlockNodes(b)
    decreases b, 0
  {
    hide Numbered, Count, NumberedAll, Counts, LayStmt, StmtNodes, BlockNodes;
    if b == [] {
      NoneNumbered(lo);
      NoNodes();
    } else {
      var most, st := b[..|b| - 1], b[|b| - 1];
      BlockNumbered(most, lo);
      StmtNumbered(st, lo + BlockNodes(most));
      SnocNumbered(LayBlock(most, lo), LayStmt(st, lo + BlockNodes(most)), lo);
      BlockNodesSnoc(most, st);
      assert b == most + [st];
    }
  }

  // ----- every such tree is the layout of a program

  /** The parts of a well-shaped node. */
  lemma {:induction false} Kids(t: Tree)
    requires WellShaped(t)
    ensures Children(t.val, t.kids) && AllShaped(t.kids)
    ensures forall i :: 0 <= i < |t.kids| ==> WellShaped(t.kids[i])
  {
  }

  lemma {:induction false} PlaceOf(t: Tree, lo: nat) returns (p: Place)
    requires WellShaped(t) && IsCallee(t.val) && Numbered(t, lo)
    ensures GoodPlace(p) && LayPlace(p, lo) == t && (IsTarget(t.val) ==> RootedInName(p))
    decreases t
  {
    hide WellShaped, Numbered, Count;
    Kids(t);
    match t.val
    case SymRefNode(n, _) =>
      Tip(t, lo);
      p := Sym(n);
    case BuiltinNode(Constructor(prim)) =>
      Tip(t, lo);
      p := Ctor(prim);
    case BuiltinNode(Function(f)) =>
      Tip(t, lo);
      p := Builtin(f);
    case MemberNode(n) =>
      LastOverOne(t, t.kids[0], lo);
      var q := PlaceOf(t.kids[0], lo);
      PlaceNumbered(q, lo);
      p := Member(q, n);
      assert t.kids == [t.kids[0]];
  }

  lemma {:induction false} ExprOf(t: Tree, lo: nat) returns (e: Expr)
    requires WellShaped(t) && IsExpr(t.val) && Numbered(t, lo)
    ensures Plain(e) && LayExpr(e, lo) == t
    decreases t, 1
  {
    hide WellShaped, Numbered, Count, LayPlace, GoodPlace, IsCallee;
    Kids(t);
    match t.val
    case LiteralNode(l) =>
      Tip(t, lo);
      e := Lit(l);
    case InsertNode(n) =>
      Tip(t, lo);
      e := Insert(n, true);
    case SingletonNode(n) =>
      Tip(t, lo);
      e := Singleton(n, true);
    case CallNode =>
      var p, args := CallOf(t, lo);
      e := Call(p, args);
    case UnopNode(op) =>
      LastOverOne(t, t.kids[0], lo);
      var x := ExprOf(t.kids[0], lo);
      ExprNumbered(x, lo);
      e := Un(op, x);
      assert t.kids == [t.kids[0]];
    case BinopNode(op) =>
      var l, r := OperandsOf(t, lo);
      e := Bin(op, l, r);
    case _ =>
      var p := PlaceOf(t, lo);
      e := Ref(p);
  }

  lemma {:induction false} OperandsOf(t: Tree, lo: nat) returns (l: Expr, r: Expr)
    requires WellShaped(t) && t.val.BinopNode? && Numbered(t, lo)
    ensures t.val.op != Sub && Plain(l) && Plain(r) && LayExpr(Bin(t.val.op, l, r), lo) == t
    decreases t, 0
  {
    hide WellShaped, Numbered, Count, IsExpr, Plain;
    Kids(t);
    assert t.kids == [t.kids[0], t.kids[1]];
    LastOverTwo(t, t.kids[0], t.kids[1], lo);
    l := ExprOf(t.kids[0], lo);
    ExprNumbered(l, lo);
    r := ExprOf(t.kids[1], lo + ExprNodes(l));
    ExprNumbered(r, lo + ExprNodes(l));
  }

  lemma {:induction false} CallOf(t: Tree, lo: nat) returns (p: Place, args: seq<Expr>)
    requires WellShaped(t) && t.val.CallNode? && Numbered(t, lo)
    ensures GoodPlace(p) && PlainArgs(args) && LayCall(p, args, lo) == t
            && (IsTarget(t.kids[0].val) ==> RootedInName(p))
    decreases t, 0
  {
    hide WellShaped, Numbered, Count, Counts, NumberedAll, LayPlace, LayArgs, GoodPlace, PlainArgs, IsCallee, AllExprs;
    Kids(t);
    SecondOver(t, lo);
    p := PlaceOf(t.kids[0], lo);
    PlaceNumbered(p, lo);
    assert AllShaped(t.kids[1..]) by { MoreShaped(t.kids); }
    args := ArgsOf(t.kids[1..], t.id + 1);
    assert t.kids == [t.kids[0]] + t.kids[1..];
  }

  lemma {:induction false} MoreShaped(ts: seq<Tree>)
    requires AllShaped(ts) && ts != []
    ensures AllShaped(ts[1..]) && AllShaped(ts[..|ts| - 1])
  {
    hide WellShaped;
  }

  lemma {:induction false} ArgsOf(ts: seq<Tree>, lo: nat) returns (args: seq<Expr>)
    requires AllShaped(ts) && AllExprs(ts) && NumberedAll(ts, lo)
    ensures PlainArgs(args) && LayArgs(args, lo) == ts
    decreases ts, 0
  {
    hide WellShaped, Numbered, Count, Counts, NumberedAll, IsExpr, Plain, LayExpr, ArgNodes;
    args := [];
    if ts != [] {
      var most, t := ts[..|ts| - 1], ts[|ts| - 1];
      assert ts == most + [t];
      SnocNumbered(most, t, lo);
      var less := ArgsOf(most, lo);
      ArgsNumbered(less, lo);
      var e := ExprOf(t, lo + ArgNodes(less));
      args := less + [e];
      PlainArgsSnoc(less, e);
      assert args[..|args| - 1] == less;
    }
  }

  lemma {:induction false} PlainArgsSnoc(args: seq<Expr>, e: Expr)
    requires PlainArgs(args) && Plain(e)
    ensures PlainArgs(args + [e])
    decreases args
  {
    hide Plain;
    if args == [] {
      assert ([] + [e])[1..] == [];
    } else {
      assert (args + [e])[1..] == args[1..] + [e];
      PlainArgsSnoc(args[1..], e);
    }
  }

  lemma {:induction false} StmtOf(t: Tree, lo: nat) returns (st: Stmt)
    requires WellShaped(t) && IsStmtTree(t) && Numbered(t, lo)
    ensures PlainStmt(st) && LayStmt(st, lo) == t
    decreases t, 1
  {
    hide WellShaped, Numbered, Count, LayExpr, LayCall, LayPlace, Plain, PlainArgs, RootedInName, IsExpr, IsTarget;
    Kids(t);
    match t.val
    case VarDeclNode(n, ty) =>
      var e := OperandOf(t, lo);
      st := Let(n, ty, e);
    case ReturnNode =>
      var e := OperandOf(t, lo);
      st := Return(e);
    case AssignNode => st := AssignOf(t, lo);
    case CallNode =>
      var p, args := CallOf(t, lo);
      st := Do(p, args);
    case IfNode => st := IfOf(t, lo);
    case WhileNode => st := WhileOf(t, lo);
    case FunDeclNode(_, _, _) => st := FunOf(t, lo);
  }

  lemma {:induction false} OperandOf(t: Tree, lo: nat) returns (e: Expr)
    requires WellShaped(t) && (t.val.VarDeclNode? || t.val.ReturnNode?) && Numbered(t, lo)
    ensures Plain(e) && t == Tree(lo + ExprNodes(e), t.val, [LayExpr(e, lo)])
  {
    hide WellShaped, Numbered, Count, IsExpr, Plain;
    Kids(t);
    assert t.kids == [t.kids[0]];
    LastOverOne(t, t.kids[0], lo);
    e := ExprOf(t.kids[0], lo);
    ExprNumbered(e, lo);
  }

  lemma {:induction false} AssignOf(t: Tree, lo: nat) returns (st: Stmt)
    requires WellShaped(t) && t.val.AssignNode? && Numbered(t, lo)
    ensures PlainStmt(st) && LayStmt(st, lo) == t
  {
    hide WellShaped, Numbered, Count, IsExpr, Plain, RootedInName, LayExpr, LayPlace;
    Kids(t);
    assert t.kids == [t.kids[0], t.kids[1]];
    LastOverTwo(t, t.kids[0], t.kids[1], lo);
    var p := PlaceOf(t.kids[0], lo);
    PlaceNumbered(p, lo);
    var e := ExprOf(t.kids[1], lo + PlaceNodes(p));
    ExprNumbered(e, lo + PlaceNodes(p));
    st := Assign(p, e);
  }

  lemma {:induction false} WhileOf(t: Tree, lo: nat) returns (st: Stmt)
    requires WellShaped(t) && t.val.WhileNode? && Numbered(t, lo)
    ensures PlainStmt(st) && LayStmt(st, lo) == t
    decreases t, 0
  {
    hide WellShaped, Numbered, Count, Counts, NumberedAll, IsExpr, Plain, PlainBlock, LayExpr, LayBody;
    Kids(t);
    SecondOver(t, lo);
    var c := ExprOf(t.kids[0], lo);
    ExprNumbered(c, lo);
    assert t.kids[1..] == [t.kids[1]];
    OneNumbered(t.kids[1], t.id + 1);
    var b := BodyOf(t.kids[1], t.id + 1);
    st := While(c, b);
    assert t.kids == [t.kids[0], t.kids[1]];
  }

  lemma {:induction false} FunOf(t: Tree, lo: nat) returns (st: Stmt)
    requires WellShaped(t) && t.val.FunDeclNode? && Numbered(t, lo)
    ensures PlainStmt(st) && LayStmt(st, lo) == t
    decreases t, 0
  {
    hide WellShaped, Numbered, Count, Counts, NumberedAll, AllArgs, PlainBlock, LayParams, LayBody;
    Kids(t);
    FirstOverAll(t, lo);
    var most, last := t.kids[..|t.kids| - 1], t.kids[|t.kids| - 1];
    assert t.kids == most + [last];
    SnocNumbered(most, last, lo + 1);
    MoreShaped(t.kids);
    var ps := ParamsOf(most, lo + 1);
    ParamsNumbered(ps, lo + 1);
    var b := BodyOf(last, lo + 1 + |ps|);
    st := Fun(t.val.name, ps, t.val.ret, b);
  }

  lemma {:induction false} ParamsOf(ts: seq<Tree>, lo: nat) returns (ps: seq<Param>)
    requires AllShaped(ts) && AllArgs(ts) && NumberedAll(ts, lo)
    ensures LayParams(ps, lo) == ts
    decreases ts
  {
    hide WellShaped, Numbered, Count, Counts, NumberedAll;
    ps := [];
    if ts != [] {
      var most, t := ts[..|ts| - 1], ts[|ts| - 1];
      assert ts == most + [t];
      SnocNumbered(most, t, lo);
      var less := ParamsOf(most, lo);
      ParamsNumbered(less, lo);
      Kids(t);
      Tip(t, lo + |less|);
      ps := less + [Param(t.val.name, t.val.argType)];
      assert ps[..|ps| - 1] == less;
    }
  }

  lemma {:induction false} IfOf(t: Tree, lo: nat) returns (st: Stmt)
    requires WellShaped(t) && t.val.IfNode? && Numbered(t, lo)
    ensures PlainStmt(st) && LayStmt(st, lo) == t
    decreases t, 0
  {
    hide WellShaped, Numbered, Count, Counts, NumberedAll, Alternate, AllShaped, PlainBlock, PlainBranches, LayBranches,
      LayBody, BranchNodes;
    Kids(t);
    FirstOverAll(t, lo);
    if |t.kids| % 2 == 0 {
      var bs := BranchesOf(t.kids, lo + 1);
      NothingMore(t.kids);
      st := If(bs, NoElse);
      assert LayStmt(st, lo).kids == t.kids + [];
    } else {
      var most, last := t.kids[..|t.kids| - 1], t.kids[|t.kids| - 1];
      assert t.kids == most + [last];
      SnocNumbered(most, last, lo + 1);
      MoreShaped(t.kids);
      var bs := BranchesOf(most, lo + 1);
      BranchesNumbered(bs, lo + 1);
      var b := BodyOf(last, lo + 1 + BranchNodes(bs));
      st := If(bs, Else(b));
      assert LayStmt(st, lo).kids == most + [last];
    }
  }

  lemma {:induction false} BranchesOf(ts: seq<Tree>, lo: nat) returns (bs: seq<Branch>)
    requires AllShaped(ts) && Alternate(ts) && NumberedAll(ts, lo)
    ensures PlainBranches(bs) && LayBranches(bs, lo) == ts && |ts| == 2 * |bs|
    decreases ts, 0
  {
    hide WellShaped, Numbered, Count, Counts, NumberedAll, IsExpr, Plain, PlainBlock, PlainBranches, LayExpr, LayBody,
      BranchNodes, ExprNodes;
    bs := [];
    if ts == [] {
      NoBranchesPlain();
    } else {
      var most, c, d := ts[..|ts| - 2], ts[|ts| - 2], ts[|ts| - 1];
      assert ts == most + [c, d];
      TwoMore(most, c, d, lo);
      var less := BranchesOf(most, lo);
      BranchesNumbered(less, lo);
      var m := lo + BranchNodes(less);
      var e := ExprOf(c, m);
      ExprNumbered(e, m);
      var b := BodyOf(d, m + ExprNodes(e));
      bs := less + [Branch(e, b)];
      PlainBranchesSnoc(less, Branch(e, b));
      assert bs[..|bs| - 1] == less;
    }
  }

  lemma {:induction false} NoBranchesPlain()
    ensures PlainBranches([]) && PlainBlock([])
  {
  }

  lemma {:induction false} PlainBranchesSnoc(bs: seq<Branch>, x: Branch)
    requires PlainBranches(bs) && Plain(x.cond) && PlainBlock(x.body)
    ensures PlainBranches(bs + [x])
    decreases bs
  {
    hide Plain, PlainBlock;
    if bs == [] {
      assert ([] + [x])[1..] == [];
    } else {
      assert (bs + [x])[1..] == bs[1..] + [x];
      PlainBranchesSnoc(bs[1..], x);
    }
  }

  lemma {:induction false} BodyOf(t: Tree, lo: nat) returns (b: seq<Stmt>)
    requires WellShaped(t) && t.val.CompoundNode? && Numbered(t, lo)
    ensures PlainBlock(b) && LayBody(b, lo) == t
    decreases t, 2
  {
    hide WellShaped, Numbered, NumberedAll, AllStmts, PlainBlock, LayBlock;
    Kids(t);
    FirstOverAll(t, lo);
    b := BlockOf(t.kids, lo + 1);
  }

  lemma {:induction false} BlockOf(ts: seq<Tree>, lo: nat) returns (b: seq<Stmt>)
    requires AllShaped(ts) && AllStmts(ts) && NumberedAll(ts, lo)
    ensures PlainBlock(b) && LayBlock(b, lo) == ts
    decreases ts, 0
  {
    hide WellShaped, Numbered, Count, Counts, NumberedAll, IsStmtTree, PlainStmt, PlainBlock, LayStmt, BlockNodes;
    b := [];
    if ts == [] {
      NoBranchesPlain();
    } else {
      var most, t := ts[..|ts| - 1], ts[|ts| - 1];
      assert ts == most + [t];
      SnocNumbered(most, t, lo);
      var less := BlockOf(most, lo);
      BlockNumbered(less, lo);
      var st := StmtOf(t, lo + BlockNodes(less));
      b := less + [st];
      PlainBlockSnoc(less, st);
      assert b[..|b| - 1] == less;
    }
  }

  lemma {:induction false} PlainBlockSnoc(b: seq<Stmt>, st: Stmt)
    requires PlainBlock(b) && PlainStmt(st)
    ensures PlainBlock(b + [st])
    decreases b
  {
    hide PlainStmt;
    if b == [] {
      assert ([] + [st])[1..] == [];
    } else {
      assert (b + [st])[1..] == b[1..] + [st];
      PlainBlockSnoc(b[1..], st);
    }
  }

  // ----- exactness

  /** Some stream is read as a program that lies in the arena as `t`. */
  ghost predicate Parsed(t: Tree) {
    exists s: seq<Item>, room: nat :: ReadModule(s, room).Ok? && LayModule(ReadModule(s, room).value) == t
  }

  /** A tree is what some accepted stream leaves in the arena if and only if it is a
      module whose nodes have the children of their types and ids in the order of
      allocation. */
  lemma {:induction false} ParsedIff(t: Tree)
    ensures Parsed(t) <==> t.val.ModuleNode? && WellShaped(t) && Numbered(t, 0)
  {
    hide ReadModule, WellShaped, Numbered, NumberedAll, AllStmts, PlainBlock, LayBlock;
    if Parsed(t) {
      var s: seq<Item>, room: nat :| ReadModule(s, room).Ok? && LayModule(ReadModule(s, room).value) == t;
      var b := ReadModule(s, room).value;
      ModuleShaped(s, room);
      BlockNumbered(b, 1);
      FirstOverAll(t, 0);
    }
    if t.val.ModuleNode? && WellShaped(t) && Numbered(t, 0) {
      Kids(t);
      FirstOverAll(t, 0);
      var b := BlockOf(t.kids, 1);
      var s, room := BlockTokens(DressBlock(b)), BlockNodes(b);
      RoundTrip(b, room);
      LayoutStrips(ReadModule(s, room).value);
      assert ReadModule(s, room).Ok? && LayModule(ReadModule(s, room).value) == t;
    }
  }
}
